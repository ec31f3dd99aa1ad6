/** Projectiles: the bullet pool and the bullet's own lifecycle.

    A bullet is a scene object. `active` is Unity's active flag (the pool
    parent is taken to be active, so it is also `activeInHierarchy`), and
    `destroyed` is what makes Unity's overloaded `== null` true after
    `Destroy`: every reference to a destroyed bullet, including its entries
    in the pool's queue, then reads as null. The two classes refer to each
    other (a bullet keeps a back-reference to its pool), so they share one
    module. */
module Projectiles {
  import opened Common
  import opened Geometry

  /** The retry bound of the checkout loop. */
  const MaxCheckoutAttempts: nat := 10
  /** Seconds a bullet lives before it goes back to the pool. */
  const Lifetime: real := 5.0
  /** Damage a bullet deals to an enemy it hits. */
  const Damage: int := 10
  const EnemyTag: string := "Enemy"

  /** The collider a bullet's trigger touched: its tag, and the identity of
      its EnemyHealth component if it has one. */
  datatype Collider = Collider(tag: string, enemyHealth: Option<nat>)

  /** Damage handed to an EnemyHealth component. */
  datatype Hit = Hit(enemyHealth: nat, damage: int)

  /** A queued bullet the pool may hand out: still existing and inactive. */
  predicate Reusable(b: Bullet)
    reads b
  {
    !b.destroyed && !b.active
  }

  /** The first reusable bullet of `s`, or null: the reference definition of
      what a scan of the queue should pick. */
  function FirstReusable(s: seq<Bullet>): (r: Bullet?)
    reads set b | b in s
    ensures r != null ==> r in s && Reusable(r)
    ensures r == null <==> forall i :: 0 <= i < |s| ==> !Reusable(s[i])
  {
    if s == [] then null
    else if Reusable(s[0]) then s[0]
    else FirstReusable(s[1..])
  }

  /** The bullet FirstReusable picks is the first reusable entry: it sits
      at some position before which no entry is reusable. The queue may
      hold a bullet twice, so this is said of one occurrence. */
  lemma {:induction false} FirstReusableIsFirst(s: seq<Bullet>)
    ensures FirstReusable(s) != null ==>
      exists k :: 0 <= k < |s| && s[k] == FirstReusable(s) && forall j :: 0 <= j < k ==> !Reusable(s[j])
    decreases |s|
  {
    if s != [] && !Reusable(s[0]) && FirstReusable(s) != null {
      FirstReusableIsFirst(s[1..]);
      var k :| 0 <= k < |s| - 1 && s[1..][k] == FirstReusable(s[1..]) && forall j :: 0 <= j < k ==> !Reusable(s[1..][j]);
      assert s[k + 1] == FirstReusable(s) && forall j :: 0 <= j < k + 1 ==> !Reusable(s[j]);
    }
  }

  /** The queue's entries that still exist (not destroyed), in order. */
  function Live(s: seq<Bullet>): seq<Bullet>
    reads set b | b in s
  {
    if s == [] then []
    else if s[0].destroyed then Live(s[1..])
    else [s[0]] + Live(s[1..])
  }

  /** The checkout loop of GetBullet, run with `budget` attempts left: the
      queue it leaves and the bullet it chose (null when it chose none).
      A destroyed head is dropped, an active head goes to the back, a
      reusable head is taken. */
  function Checkout(q: seq<Bullet>, budget: nat): (r: (Bullet?, seq<Bullet>))
    reads set b | b in q
    ensures r.0 != null ==> r.0 in q && Reusable(r.0)
    ensures |r.1| + (if r.0 != null then 1 else 0) <= |q|
    decreases budget
  {
    if budget == 0 || |q| == 0 then (null, q)
    else if Reusable(q[0]) then (q[0], q[1..])
    else if !q[0].destroyed then Checkout(q[1..] + [q[0]], budget - 1)
    else Checkout(q[1..], budget - 1)
  }

  function Min(a: nat, b: nat): nat {
    if a <= b then a else b
  }

  lemma {:induction false} FirstReusableSkipsTail(s: seq<Bullet>, x: Bullet)
    requires !Reusable(x)
    ensures FirstReusable(s + [x]) == FirstReusable(s)
    decreases |s|
  {
    if s != [] {
      assert (s + [x])[1..] == s[1..] + [x];
      FirstReusableSkipsTail(s[1..], x);
    }
  }

  /** The checkout loop hands out exactly the first reusable bullet among
      the first `budget` entries of the queue, and none when those entries
      hold none: active bullets rotated to the back come round again only
      after every other entry has been looked at. */
  lemma {:induction false} CheckoutPicksFirstReusable(q: seq<Bullet>, budget: nat)
    ensures Checkout(q, budget).0 == FirstReusable(q[..Min(budget, |q|)])
    decreases budget
  {
    if budget == 0 || |q| == 0 {
    } else if Reusable(q[0]) {
      assert q[..Min(budget, |q|)][0] == q[0];
    } else if !q[0].destroyed {
      RotatedHeadPicksFirstReusable(q, budget);
    } else {
      DroppedHeadPicksFirstReusable(q, budget);
    }
  }

  /** The step of CheckoutPicksFirstReusable where an active head goes to the back. */
  lemma {:induction false} RotatedHeadPicksFirstReusable(q: seq<Bullet>, budget: nat)
    requires budget > 0 && |q| > 0 && q[0].active && !q[0].destroyed
    ensures Checkout(q, budget).0 == FirstReusable(q[..Min(budget, |q|)])
    decreases budget, 0
  {
    var m := Min(budget, |q|);
    var q' := q[1..] + [q[0]];
    assert Checkout(q, budget) == Checkout(q', budget - 1);
    assert FirstReusable(q[..m]) == FirstReusable(q[1..m]) by {
      assert q[..m][1..] == q[1..m];
    }
    CheckoutPicksFirstReusable(q', budget - 1);
    if budget - 1 < |q| {
      assert q'[..budget - 1] == q[1..m];
    } else {
      assert q'[..|q'|] == q';
      FirstReusableSkipsTail(q[1..], q[0]);
      assert q[1..m] == q[1..];
    }
  }

  /** The step of CheckoutPicksFirstReusable where a destroyed head is dropped. */
  lemma {:induction false} DroppedHeadPicksFirstReusable(q: seq<Bullet>, budget: nat)
    requires budget > 0 && |q| > 0 && q[0].destroyed
    ensures Checkout(q, budget).0 == FirstReusable(q[..Min(budget, |q|)])
    decreases budget, 0
  {
    var m := Min(budget, |q|);
    assert Checkout(q, budget) == Checkout(q[1..], budget - 1);
    assert FirstReusable(q[..m]) == FirstReusable(q[1..m]) by {
      assert q[..m][1..] == q[1..m];
    }
    CheckoutPicksFirstReusable(q[1..], budget - 1);
    assert q[1..][..Min(budget - 1, |q| - 1)] == q[1..m];
  }

  /** Ten live bullets at the head of the queue make the pool grow even when
      a reusable bullet waits behind them. */
  lemma GrowsBehindTenLiveBullets(q: seq<Bullet>)
    requires |q| > MaxCheckoutAttempts
    requires forall i :: 0 <= i < MaxCheckoutAttempts ==> q[i].active && !q[i].destroyed
    ensures Checkout(q, MaxCheckoutAttempts).0 == null
  {
    CheckoutPicksFirstReusable(q, MaxCheckoutAttempts);
    var head := q[..MaxCheckoutAttempts];
    assert forall i :: 0 <= i < |head| ==> !Reusable(head[i]);
  }

  lemma {:induction false} LiveDistributes(a: seq<Bullet>, b: seq<Bullet>)
    ensures Live(a + b) == Live(a) + Live(b)
    decreases |a|
  {
    if a == [] {
      assert a + b == b;
    } else {
      assert (a + b)[0] == a[0];
      assert (a + b)[1..] == a[1..] + b;
      LiveDistributes(a[1..], b);
      if a[0].destroyed {
        assert Live(a + b) == Live(a[1..] + b);
      } else {
        assert Live(a + b) == [a[0]] + Live(a[1..] + b);
      }
    }
  }

  /** The bullet a checkout chose, as a multiset of at most one element. */
  function Picked(chosen: Bullet?): multiset<Bullet> {
    if chosen == null then multiset{} else multiset{chosen}
  }

  /** The checkout loop loses no bullet that still exists other than the one
      it hands out: the live entries it leaves, with the chosen bullet, are
      the live entries it started from. */
  lemma {:induction false} CheckoutKeepsLiveBullets(q: seq<Bullet>, budget: nat)
    ensures multiset(Live(Checkout(q, budget).1)) + Picked(Checkout(q, budget).0) == multiset(Live(q))
    decreases budget
  {
    if budget == 0 || |q| == 0 {
    } else if Reusable(q[0]) {
      assert Live(q) == [q[0]] + Live(q[1..]);
    } else if !q[0].destroyed {
      RotatedHeadKeepsLive(q, budget);
    } else {
      DroppedHeadKeepsLive(q, budget);
    }
  }

  /** The step of CheckoutKeepsLiveBullets where an active head goes to the back. */
  lemma {:induction false} RotatedHeadKeepsLive(q: seq<Bullet>, budget: nat)
    requires budget > 0 && |q| > 0 && q[0].active && !q[0].destroyed
    ensures multiset(Live(Checkout(q, budget).1)) + Picked(Checkout(q, budget).0) == multiset(Live(q))
    decreases budget, 0
  {
    var q' := q[1..] + [q[0]];
    var r := Checkout(q', budget - 1);
    assert Checkout(q, budget) == r;
    assert multiset(Live(r.1)) + Picked(r.0) == multiset(Live(q')) by {
      CheckoutKeepsLiveBullets(q', budget - 1);
    }
    LiveRotate(q);
  }

  /** Moving a live head to the back keeps the live entries as a multiset. */
  lemma LiveRotate(q: seq<Bullet>)
    requires |q| > 0 && !q[0].destroyed
    ensures multiset(Live(q[1..] + [q[0]])) == multiset(Live(q))
  {
    var tail := Live(q[1..]);
    assert Live(q[1..] + [q[0]]) == tail + [q[0]] by {
      LiveDistributes(q[1..], [q[0]]);
      assert Live([q[0]]) == [q[0]];
    }
    assert Live(q) == [q[0]] + tail;
    calc {
      multiset(tail + [q[0]]);
      multiset(tail) + multiset{q[0]};
      multiset([q[0]] + tail);
    }
  }

  /** The step of CheckoutKeepsLiveBullets where a destroyed head is dropped. */
  lemma {:induction false} DroppedHeadKeepsLive(q: seq<Bullet>, budget: nat)
    requires budget > 0 && |q| > 0 && q[0].destroyed
    ensures multiset(Live(Checkout(q, budget).1)) + Picked(Checkout(q, budget).0) == multiset(Live(q))
    decreases budget, 0
  {
    var r := Checkout(q[1..], budget - 1);
    assert Checkout(q, budget) == r;
    assert multiset(Live(r.1)) + Picked(r.0) == multiset(Live(q[1..])) by {
      CheckoutKeepsLiveBullets(q[1..], budget - 1);
    }
    assert Live(q) == Live(q[1..]);
  }

  /** The checkout loop adds no entry: what it leaves, with the chosen
      bullet, is part of what it started from, so the only entries it drops
      besides the chosen one are destroyed ones (CheckoutKeepsLiveBullets). */
  lemma {:induction false} CheckoutAddsNothing(q: seq<Bullet>, budget: nat)
    ensures multiset(Checkout(q, budget).1) + Picked(Checkout(q, budget).0) <= multiset(q)
    decreases budget
  {
    if budget == 0 || |q| == 0 {
    } else {
      assert q == [q[0]] + q[1..];
      if Reusable(q[0]) {
      } else if !q[0].destroyed {
        CheckoutAddsNothing(q[1..] + [q[0]], budget - 1);
      } else {
        CheckoutAddsNothing(q[1..], budget - 1);
      }
    }
  }

  class Bullet {
    var active: bool
    var destroyed: bool
    var position: Vec2
    var rotation: Heading
    var lifetimeTimer: real
    var ownerPool: BulletPool?

    /** Instantiating the bullet prefab: a new, active object whose timer is
        zero and which belongs to no pool yet. */
    constructor Instantiate()
      ensures active && !destroyed && lifetimeTimer == 0.0 && ownerPool == null
    {
      active := true;
      destroyed := false;
      position := Vec2(0.0, 0.0);
      rotation := Heading(Vec2(0.0, 1.0), 0);
      lifetimeTimer := 0.0;
      ownerPool := null;
    }

    /** Records the pool the bullet belongs to and restarts its lifetime. */
    method Initialize(pool: BulletPool?)
      modifies this
      ensures ownerPool == pool && lifetimeTimer == 0.0
      ensures active == old(active) && destroyed == old(destroyed)
      ensures position == old(position) && rotation == old(rotation)
    {
      ownerPool := pool;
      lifetimeTimer := 0.0;
    }

    /** The effect of ReturnToPool between two states: with an owner pool the
        bullet is handed to the pool's ReturnBullet, which deactivates and
        enqueues it unless it is already destroyed; without one it is
        destroyed. Its pose and owner do not change. */
    twostate predicate WentBack()
      reads this, ownerPool
    {
      && ownerPool == old(ownerPool)
      && position == old(position) && rotation == old(rotation)
      && (ownerPool == null ==> destroyed && active == old(active))
      && (ownerPool != null && !old(destroyed) ==>
            !active && !destroyed && ownerPool.queue == old(ownerPool.queue) + [this])
      && (ownerPool != null && old(destroyed) ==>
            destroyed && active == old(active) && ownerPool.queue == old(ownerPool.queue))
    }

    method ReturnToPool()
      modifies this, ownerPool
      ensures WentBack() && lifetimeTimer == old(lifetimeTimer)
    {
      if ownerPool != null {
        ownerPool.ReturnBullet(this);
      } else {
        destroyed := true;
      }
    }

    /** One fixed simulation step. Only the server simulates; the timer grows
        by the step length and the bullet goes back on the first step at
        which it reaches the lifetime. The movement along `transform.up` is
        not modelled. */
    method FixedUpdate(isServer: bool, fixedDeltaTime: real)
      modifies this, ownerPool
      ensures !isServer ==> unchanged(this) && (ownerPool != null ==> unchanged(ownerPool))
      ensures isServer && old(lifetimeTimer) + fixedDeltaTime < Lifetime ==>
        && unchanged(`active, `destroyed, `position, `rotation, `ownerPool)
        && lifetimeTimer == old(lifetimeTimer) + fixedDeltaTime
        && (ownerPool != null ==> unchanged(ownerPool))
      ensures isServer && old(lifetimeTimer) + fixedDeltaTime >= Lifetime ==>
        lifetimeTimer == old(lifetimeTimer) + fixedDeltaTime && WentBack()
    {
      if !isServer {
        return;
      }
      lifetimeTimer := lifetimeTimer + fixedDeltaTime;
      if lifetimeTimer >= Lifetime {
        ReturnToPool();
      }
    }

    /** A trigger contact on the server: an enemy with an EnemyHealth
        component takes `Damage`, and the bullet goes back whatever it hit. */
    method OnTriggerEnter2D(isServer: bool, collision: Collider) returns (dealt: Option<Hit>)
      modifies this, ownerPool
      ensures !isServer ==> dealt == None && unchanged(this) && (ownerPool != null ==> unchanged(ownerPool))
      ensures isServer ==> (dealt.Some? <==> collision.tag == EnemyTag && collision.enemyHealth.Some?)
      ensures dealt.Some? ==> dealt.value == Hit(collision.enemyHealth.value, Damage)
      ensures isServer ==> WentBack() && lifetimeTimer == old(lifetimeTimer)
    {
      dealt := None;
      if !isServer {
        return;
      }
      if collision.tag == EnemyTag {
        if collision.enemyHealth.Some? {
          dealt := Some(Hit(collision.enemyHealth.value, Damage));
        }
      }
      ReturnToPool();
    }
  }

  class BulletPool {
    var queue: seq<Bullet>

    /** A pool whose queue starts empty. */
    constructor ()
      ensures queue == []
    {
      queue := [];
    }

    /** Fills the queue with `initialPoolSize` new, inactive bullets (none
        when the setting is not positive). */
    method InitializePool(initialPoolSize: int)
      modifies this
      ensures |queue| == |old(queue)| + (if initialPoolSize > 0 then initialPoolSize else 0)
      ensures queue[..|old(queue)|] == old(queue)
      ensures forall i :: |old(queue)| <= i < |queue| ==> fresh(queue[i]) && Reusable(queue[i])
      ensures forall i, j :: |old(queue)| <= i < j < |queue| ==> queue[i] != queue[j]
    {
      var i := 0;
      while i < initialPoolSize
        invariant 0 <= i && (initialPoolSize > 0 ==> i <= initialPoolSize) && (initialPoolSize <= 0 ==> i == 0)
        invariant |queue| == |old(queue)| + i
        invariant queue[..|old(queue)|] == old(queue)
        invariant forall k :: |old(queue)| <= k < |queue| ==> fresh(queue[k]) && Reusable(queue[k])
        invariant forall k, l :: |old(queue)| <= k < l < |queue| ==> queue[k] != queue[l]
      {
        var _ := CreateNewBullet();
        i := i + 1;
      }
    }

    /** A new inactive bullet, enqueued and also returned. */
    method CreateNewBullet() returns (b: Bullet)
      modifies this
      ensures fresh(b) && Reusable(b) && b.ownerPool == null && b.lifetimeTimer == 0.0
      ensures queue == old(queue) + [b]
    {
      b := new Bullet.Instantiate();
      b.active := false;
      queue := queue + [b];
    }

    /** Hands out a bullet placed at the given pose and active. The checkout
        loop picks the first reusable bullet among the first ten entries
        (CheckoutPicksFirstReusable); when it finds none, a new bullet is
        created and handed out while its queue entry stays behind. A bullet
        that was active before the call is never handed out. */
    method GetBullet(position: Vec2, rotation: Heading) returns (b: Bullet)
      modifies this, queue
      ensures b.active && !b.destroyed && b.position == position && b.rotation == rotation
      ensures var (chosen, rest) := old(Checkout(queue, MaxCheckoutAttempts));
        if chosen != null then b == chosen && queue == rest
        else fresh(b) && queue == rest + [b] && b.ownerPool == null && b.lifetimeTimer == 0.0
      ensures !fresh(b) ==> old(Reusable(b)) && b.ownerPool == old(b.ownerPool) && b.lifetimeTimer == old(b.lifetimeTimer)
      ensures forall x :: x in old(queue) && x != b ==> unchanged(x)
      ensures forall x :: x in queue ==> x in old(queue) || x == b
    {
      ghost var q0 := queue;
      var bullet: Bullet? := null;
      var attempts := 0;
      while bullet == null && |queue| > 0 && attempts < MaxCheckoutAttempts
        invariant 0 <= attempts <= MaxCheckoutAttempts
        invariant bullet == null
        invariant Checkout(queue, MaxCheckoutAttempts - attempts) == Checkout(q0, MaxCheckoutAttempts)
        invariant forall x :: x in queue ==> x in q0
        modifies this
        decreases MaxCheckoutAttempts - attempts
      {
        var candidate := queue[0];
        queue := queue[1..];
        if !candidate.destroyed && !candidate.active {
          bullet := candidate;
          break;
        } else if !candidate.destroyed && candidate.active {
          queue := queue + [candidate];
        }
        attempts := attempts + 1;
      }

      assert bullet == null || bullet in q0;
      if bullet == null {
        bullet := CreateNewBullet();
      }

      b := bullet;
      b.position := position;
      b.rotation := rotation;
      b.active := true;
    }

    /** Deactivates a bullet and appends it to the queue. There is no guard
        against a bullet that is already queued, so returning it twice
        queues it twice; only a null (or destroyed) bullet is ignored. */
    method ReturnBullet(bullet: Bullet?)
      modifies this, bullet
      ensures bullet == null || old(bullet.destroyed) ==>
        queue == old(queue) && (bullet != null ==> unchanged(bullet))
      ensures bullet != null && !old(bullet.destroyed) ==>
        && queue == old(queue) + [bullet]
        && !bullet.active && !bullet.destroyed
        && unchanged(bullet`position, bullet`rotation, bullet`lifetimeTimer, bullet`ownerPool)
    {
      if bullet == null || bullet.destroyed {
        return;
      }
      bullet.active := false;
      queue := queue + [bullet];
    }
  }

  /** The expansion path and the missing return guard, end to end: an empty
      pool grows to one entry on the first request and hands that bullet out
      while it stays queued; returning it leaves it queued twice; the next
      request reuses it without growing and one stale entry remains. */
  method ExpansionScenario() returns (sizes: seq<nat>, reused: bool)
    ensures sizes == [1, 2, 1] && reused
  {
    var pool := new BulletPool();
    var pose := Heading(Vec2(0.0, 1.0), 0);
    var first := pool.GetBullet(Vec2(0.0, 0.0), pose);
    var afterGet := |pool.queue|;
    pool.ReturnBullet(first);
    var afterReturn := |pool.queue|;
    var second := pool.GetBullet(Vec2(1.0, 1.0), pose);
    var afterReuse := |pool.queue|;
    sizes := [afterGet, afterReturn, afterReuse];
    reused := first == second;
  }
}
