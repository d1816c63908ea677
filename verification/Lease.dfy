/** The build lock: one key with a time to live, and the three atomic commands on it.
  *
  * A trace is any list of timestamped commands sent by any endpoints; nothing here knows
  * who is building. The theorems say what one holder may rely on under every such trace.
  */
module Lease {

  type Endpoint = string

  datatype Lock = Free | Held(holder: Endpoint, expiry: int)

  datatype Command = Acquire(who: Endpoint) | Renew(who: Endpoint) | Release(who: Endpoint)

  datatype Timed = At(time: int, cmd: Command)

  /** What a command sees at time `now`: a lapsed key is a missing key. */
  function Seen(lock: Lock, now: int): Lock {
    if lock.Held? && now < lock.expiry then lock else Free
  }

  predicate HeldBy(lock: Lock, now: int, who: Endpoint) {
    Seen(lock, now).Held? && Seen(lock, now).holder == who
  }

  /** Whether the command has its effect; this is the reply the caller gets. */
  predicate Succeeds(lock: Lock, now: int, cmd: Command) {
    match cmd
    case Acquire(_) => Seen(lock, now).Free?
    case Renew(who) => HeldBy(lock, now, who)
    case Release(who) => HeldBy(lock, now, who)
  }

  /** SET NX PX; GET-then-PEXPIRE; GET-then-DEL. */
  function Apply(lock: Lock, now: int, ttl: int, cmd: Command): Lock {
    if !Succeeds(lock, now, cmd) then Seen(lock, now)
    else if cmd.Release? then Free
    else Held(cmd.who, now + ttl)
  }

  function Run(lock: Lock, ttl: int, tr: seq<Timed>): Lock {
    if tr == [] then lock
    else
      var last := tr[|tr| - 1];
      Apply(Run(lock, ttl, tr[..|tr| - 1]), last.time, ttl, last.cmd)
  }

  ghost predicate Ordered(tr: seq<Timed>) {
    forall i, j :: 0 <= i < j < |tr| ==> tr[i].time <= tr[j].time
  }

  /** The state of the lock just before command `k` of the trace. */
  function Before(lock: Lock, ttl: int, tr: seq<Timed>, k: nat): Lock
    requires k <= |tr|
  {
    Run(lock, ttl, tr[..k])
  }

  lemma BeforeNext(lock: Lock, ttl: int, tr: seq<Timed>, k: nat)
    requires k < |tr|
    ensures Before(lock, ttl, tr, k + 1) == Apply(Before(lock, ttl, tr, k), tr[k].time, ttl, tr[k].cmd)
  {
    assert tr[..k + 1][..k] == tr[..k];
  }

  // ---------------------------------------------------------------- stale locks

  /** The commands that are not the holder's own renewals or releases. */
  predicate Foreign(cmd: Command, holder: Endpoint) {
    cmd.who == holder ==> cmd.Acquire?
  }

  /** A holder that has stopped: until the expiry nothing anybody else sends (and no acquire of a
    * restarted primer with the same endpoint) extends, replaces or removes its lock; from the expiry
    * on, if nothing landed in between, the next acquire of anyone succeeds. */
  lemma {:induction false} StaleLockLivesExactlyToExpiry(
    holder: Endpoint, expiry: int, ttl: int, tr: seq<Timed>, now: int, who: Endpoint)
    requires forall i :: 0 <= i < |tr| ==> Foreign(tr[i].cmd, holder) && tr[i].time < expiry
    ensures Run(Held(holder, expiry), ttl, tr) == Held(holder, expiry)
    ensures Succeeds(Run(Held(holder, expiry), ttl, tr), now, Acquire(who)) <==> expiry <= now
  {
    if tr != [] {
      StaleLockLivesExactlyToExpiry(holder, expiry, ttl, tr[..|tr| - 1], now, who);
      assert Foreign(tr[|tr| - 1].cmd, holder);
    }
  }

  /** The commands of `tr` that `who` sent. */
  function Own(tr: seq<Timed>, who: Endpoint): seq<Timed> {
    if tr == [] then []
    else
      var last := tr[|tr| - 1];
      Own(tr[..|tr| - 1], who) + (if last.cmd.who == who then [last] else [])
  }

  /** As long as `who` is the holder, the lock evolves exactly as if nobody else had sent anything:
    * late renewals and releases of earlier holders, and competing acquires, can all be erased. */
  lemma {:induction false} OthersAreInvisibleToTheHolder(lock: Lock, ttl: int, tr: seq<Timed>, who: Endpoint)
    requires forall k :: 0 <= k < |tr| ==> HeldBy(Before(lock, ttl, tr, k), tr[k].time, who)
    ensures Run(lock, ttl, tr) == Run(lock, ttl, Own(tr, who))
  {
    if tr != [] {
      var init, last := tr[..|tr| - 1], tr[|tr| - 1];
      forall k | 0 <= k < |init|
        ensures HeldBy(Before(lock, ttl, init, k), init[k].time, who)
      {
        assert init[..k] == tr[..k];
        assert HeldBy(Before(lock, ttl, tr, k), tr[k].time, who);
      }
      OthersAreInvisibleToTheHolder(lock, ttl, init, who);
      assert HeldBy(Before(lock, ttl, tr, |init|), last.time, who);
      if last.cmd.who == who {
        assert Own(tr, who)[..|Own(tr, who)| - 1] == Own(init, who);
      } else {
        assert Own(tr, who) == Own(init, who);
      }
    }
  }

  /** Command `k` is the one that gave the lock its present holder and expiry. */
  ghost predicate GrantedAt(ttl: int, tr: seq<Timed>, k: nat, lock: Lock) {
    && lock.Held?
    && k < |tr|
    && !tr[k].cmd.Release?
    && tr[k].cmd.who == lock.holder
    && tr[k].time + ttl == lock.expiry
    && Succeeds(Before(Free, ttl, tr, k), tr[k].time, tr[k].cmd)
    && forall j :: k < j <= |tr| ==> Before(Free, ttl, tr, j) == lock
  }

  /** A held lock always expires exactly one TTL after the last effective acquire or renewal of its
    * holder, and nothing after that command has touched it. */
  lemma {:induction false} HeldSinceItsLastGrant(ttl: int, tr: seq<Timed>)
    requires Run(Free, ttl, tr).Held?
    ensures exists k: nat :: GrantedAt(ttl, tr, k, Run(Free, ttl, tr))
  {
    assert tr != [];
    assert tr[..|tr|] == tr;
    var n := |tr| - 1;
    var init, last := tr[..n], tr[n];
    var lock := Run(Free, ttl, tr);
    BeforeNext(Free, ttl, tr, n);
    if Succeeds(Run(Free, ttl, init), last.time, last.cmd) {
      assert GrantedAt(ttl, tr, n, lock);
    } else {
      HeldSinceItsLastGrant(ttl, init);
      var k: nat :| GrantedAt(ttl, init, k, Run(Free, ttl, init));
      assert init[..k] == tr[..k];
      forall j | k < j <= |tr|
        ensures Before(Free, ttl, tr, j) == lock
      {
        if j <= n {
          assert init[..j] == tr[..j];
          assert Before(Free, ttl, init, j) == Run(Free, ttl, init);
        }
      }
      assert GrantedAt(ttl, tr, k, lock);
    }
  }

  /** Command `k` took the lock for `who` when there was none, or a lapsed one, and at every later command it was still
    * `who`'s and had not lapsed. */
  ghost predicate LeasedSince(ttl: int, tr: seq<Timed>, k: nat, who: Endpoint) {
    && k < |tr| && tr[k].cmd == Acquire(who)
    && (Before(Free, ttl, tr, k) == Free || Before(Free, ttl, tr, k).expiry <= tr[k].time)
    && (forall j :: k < j <= |tr| ==> Before(Free, ttl, tr, j).Held? && Before(Free, ttl, tr, j).holder == who)
    && (forall j :: k < j < |tr| ==> tr[j].time < Before(Free, ttl, tr, j).expiry)
  }

  lemma StillLeased(ttl: int, init: seq<Timed>, last: Timed, k: nat, who: Endpoint)
    requires LeasedSince(ttl, init, k, who)
    requires Run(Free, ttl, init).Held? && last.time < Run(Free, ttl, init).expiry
    requires Run(Free, ttl, init + [last]).Held? && Run(Free, ttl, init + [last]).holder == who
    ensures LeasedSince(ttl, init + [last], k, who)
  {
    hide Run;
    var n, tr := |init|, init + [last];
    assert init[..n] == init && tr[..n + 1] == tr;
    forall j | 0 <= j <= n
      ensures Before(Free, ttl, tr, j) == Before(Free, ttl, init, j)
    {
      assert tr[..j] == init[..j];
    }
  }

  /** Only an acquire makes a lock: behind every held lock is an acquire of its holder, and no renewal since has come
    * after the expiry it was to move. */
  lemma {:induction false} EveryLeaseGoesBackToAnAcquire(ttl: int, tr: seq<Timed>)
    requires Run(Free, ttl, tr).Held?
    ensures exists k: nat :: LeasedSince(ttl, tr, k, Run(Free, ttl, tr).holder)
  {
    var n := |tr| - 1;
    var init, last := tr[..n], tr[n];
    var who := Run(Free, ttl, tr).holder;
    assert tr == init + [last];
    if last.cmd.Acquire? && Succeeds(Run(Free, ttl, init), last.time, last.cmd) {
      assert tr[..n + 1] == tr;
      assert LeasedSince(ttl, tr, n, who);
    } else {
      EveryLeaseGoesBackToAnAcquire(ttl, init);
      var k: nat :| LeasedSince(ttl, init, k, Run(Free, ttl, init).holder);
      StillLeased(ttl, init, last, k, who);
    }
  }

  /** Renewals and releases, timely or late, never change the holder, and bring back neither a missing nor a lapsed
    * lock. */
  lemma {:induction false} OnlyAnAcquireMakesALock(lock: Lock, ttl: int, tr: seq<Timed>)
    requires forall i :: 0 <= i < |tr| ==> !tr[i].cmd.Acquire?
    ensures lock.Free? ==> Run(lock, ttl, tr).Free?
    ensures Run(lock, ttl, tr).Held? ==> Run(lock, ttl, tr).holder == lock.holder
    ensures lock.Held? && tr != [] && lock.expiry <= tr[0].time ==> Run(lock, ttl, tr).Free?
  {
    if tr != [] {
      var init := tr[..|tr| - 1];
      OnlyAnAcquireMakesALock(lock, ttl, init);
      assert !tr[|tr| - 1].cmd.Acquire?;
      if init != [] { assert init[0] == tr[0]; }
    }
  }

  // ---------------------------------------------------------------- the heartbeat

  /** The k-th tick of the renewal ticker. */
  function Tick(start: int, period: int, k: nat): int {
    start + k * period
  }

  /** Some renewal of `holder` reached the store within `delay` of tick `k`. */
  ghost predicate Landed(tr: seq<Timed>, holder: Endpoint, start: int, period: int, delay: int, k: nat) {
    exists j :: 0 <= j < |tr| && LandedBy(tr[j], holder, Tick(start, period, k), delay)
  }

  predicate LandedBy(c: Timed, holder: Endpoint, tick: int, delay: int) {
    c.cmd == Renew(holder) && tick <= c.time < tick + delay
  }

  ghost predicate NotBothLost(tr: seq<Timed>, holder: Endpoint, start: int, period: int, delay: int, k: nat) {
    Landed(tr, holder, start, period, delay, k) || Landed(tr, holder, start, period, delay, k + 1)
  }

  /** A build whose lease was granted at `granted`, whose ticker started within `delay` of that, and
    * none of whose consecutive renewals (with both deadlines past at `until`) both got lost. */
  ghost predicate Heartbeat(
    ttl: int, period: int, delay: int, holder: Endpoint, granted: int, start: int, tr: seq<Timed>, until: int)
  {
    && 0 < period && 0 < delay && 3 * period <= ttl && 6 * delay <= ttl
    && granted <= start < granted + delay
    && Ordered(tr)
    && (forall i :: 0 <= i < |tr| ==> granted <= tr[i].time <= until && tr[i].cmd != Release(holder))
    && (forall k: nat ::
          1 <= k && Tick(start, period, k + 1) + delay <= until
          ==> NotBothLost(tr, holder, start, period, delay, k))
  }

  /** The last tick whose deadline has passed at time `t`. */
  lemma LastDue(start: int, period: int, delay: int, t: int) returns (k: nat)
    requires 0 < period && 0 <= delay
    ensures k == 0 || Tick(start, period, k) + delay <= t
    ensures t < Tick(start, period, k + 1) + delay
  {
    k := 0;
    while Tick(start, period, k + 1) + delay <= t
      invariant k == 0 || Tick(start, period, k) + delay <= t
      decreases t + period - Tick(start, period, k)
    {
      assert Tick(start, period, k + 1) == Tick(start, period, k) + period;
      k := k + 1;
    }
  }

  /** While `holder` keeps the lock its expiry never moves back. */
  lemma {:induction false} ExpiryNeverShrinks(
    lock: Lock, ttl: int, tr: seq<Timed>, holder: Endpoint, first: nat, last: nat)
    requires first <= last <= |tr|
    requires Before(lock, ttl, tr, first).Held?
    requires first < |tr| ==> Before(lock, ttl, tr, first).expiry <= tr[first].time + ttl
    requires Ordered(tr)
    requires forall k :: first <= k < last ==>
               HeldBy(Before(lock, ttl, tr, k), tr[k].time, holder) && tr[k].cmd != Release(holder)
    ensures Before(lock, ttl, tr, last).Held?
    ensures Before(lock, ttl, tr, first).expiry <= Before(lock, ttl, tr, last).expiry
    ensures last < |tr| ==> Before(lock, ttl, tr, last).expiry <= tr[last].time + ttl
    ensures first < last ==> Before(lock, ttl, tr, last).holder == holder
    decreases last
  {
    if first < last {
      ExpiryNeverShrinks(lock, ttl, tr, holder, first, last - 1);
      BeforeNext(lock, ttl, tr, last - 1);
      assert HeldBy(Before(lock, ttl, tr, last - 1), tr[last - 1].time, holder);
    }
  }

  /** The grant that still covers time `t`: a landed renewal, or the acquire itself (index -1). */
  lemma CoveringGrant(
    ttl: int, period: int, delay: int, holder: Endpoint, granted: int, start: int, tr: seq<Timed>, until: int, t: int)
    returns (g: int)
    requires Heartbeat(ttl, period, delay, holder, granted, start, tr, until)
    requires granted <= t <= until
    ensures -1 <= g < |tr|
    ensures g == -1 ==> t < granted + ttl
    ensures g >= 0 ==> tr[g].cmd == Renew(holder) && tr[g].time < t < tr[g].time + ttl
  {
    var k := LastDue(start, period, delay, t);
    assert Tick(start, period, k + 1) == Tick(start, period, k) + period;
    assert Tick(start, period, 1) == start + period && Tick(start, period, 0) == start;
    if k >= 1 {
      assert Tick(start, period, k) == Tick(start, period, k - 1) + period;
    }
    if k <= 1 && !(k == 1 && Landed(tr, holder, start, period, delay, 1)) {
      g := -1;
    } else if Landed(tr, holder, start, period, delay, k) {
      g :| 0 <= g < |tr| && LandedBy(tr[g], holder, Tick(start, period, k), delay);
    } else {
      assert NotBothLost(tr, holder, start, period, delay, k - 1);
      g :| 0 <= g < |tr| && LandedBy(tr[g], holder, Tick(start, period, k - 1), delay);
    }
  }

  /** Induction step of the bound: the holder has the lock at `t`, just before command `m`. */
  lemma {:induction false} HeldJustBefore(
    ttl: int, period: int, delay: int, holder: Endpoint, granted: int, start: int, tr: seq<Timed>, until: int,
    m: nat, t: int)
    requires Heartbeat(ttl, period, delay, holder, granted, start, tr, until)
    requires m <= |tr| && granted <= t <= until
    requires forall i :: 0 <= i < m ==> tr[i].time <= t
    requires forall i :: m <= i < |tr| ==> t <= tr[i].time
    ensures HeldBy(Before(Held(holder, granted + ttl), ttl, tr, m), t, holder)
    decreases m
  {
    var lock0 := Held(holder, granted + ttl);
    forall k | 0 <= k < m
      ensures HeldBy(Before(lock0, ttl, tr, k), tr[k].time, holder)
    {
      HeldJustBefore(ttl, period, delay, holder, granted, start, tr, until, k, tr[k].time);
    }
    var g := CoveringGrant(ttl, period, delay, holder, granted, start, tr, until, t);
    if g == -1 {
      ExpiryNeverShrinks(lock0, ttl, tr, holder, 0, m);
    } else {
      assert g < m;
      BeforeNext(lock0, ttl, tr, g);
      assert HeldBy(Before(lock0, ttl, tr, g), tr[g].time, holder);
      ExpiryNeverShrinks(lock0, ttl, tr, holder, g + 1, m);
    }
    if m == 0 {
      assert Before(lock0, ttl, tr, 0) == lock0;
    }
  }

  /** The bound: however long the build, with a renewal every third of the TTL, every delay below a
    * sixth of it and no two consecutive renewals lost, the lease never lapses; so every competing
    * acquire in the trace is refused. */
  lemma LeaseNeverLapses(
    ttl: int, period: int, delay: int, holder: Endpoint, granted: int, start: int, tr: seq<Timed>, until: int)
    requires Heartbeat(ttl, period, delay, holder, granted, start, tr, until)
    requires granted <= until
    ensures HeldBy(Run(Held(holder, granted + ttl), ttl, tr), until, holder)
    ensures forall k :: 0 <= k < |tr| && tr[k].cmd.Acquire? ==>
              !Succeeds(Before(Held(holder, granted + ttl), ttl, tr, k), tr[k].time, tr[k].cmd)
  {
    var lock0 := Held(holder, granted + ttl);
    assert tr[..|tr|] == tr;
    HeldJustBefore(ttl, period, delay, holder, granted, start, tr, until, |tr|, until);
    forall k | 0 <= k < |tr| && tr[k].cmd.Acquire?
      ensures !Succeeds(Before(lock0, ttl, tr, k), tr[k].time, tr[k].cmd)
    {
      HeldJustBefore(ttl, period, delay, holder, granted, start, tr, until, k, tr[k].time);
    }
  }

  /** The bound is tight in the number of lost renewals: when the renewals of the first two ticks are
    * both lost, the holder no longer has the lock at the third tick, whatever the others do. */
  lemma {:induction false} TwoLostRenewalsLoseTheLease(
    ttl: int, period: int, holder: Endpoint, granted: int, start: int, tr: seq<Timed>)
    requires 3 * period == ttl && granted <= start
    requires forall i :: 0 <= i < |tr| ==> tr[i].cmd.who != holder
    ensures !HeldBy(Run(Held(holder, granted + ttl), ttl, tr), Tick(start, period, 3), holder)
    ensures var lock := Run(Held(holder, granted + ttl), ttl, tr);
            lock == Held(holder, granted + ttl) || lock.Free? || lock.holder != holder
  {
    if tr != [] {
      TwoLostRenewalsLoseTheLease(ttl, period, holder, granted, start, tr[..|tr| - 1]);
    }
  }
}
