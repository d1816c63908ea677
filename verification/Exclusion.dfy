/** The build lease inside the protocol: who builds, and what the lock looks like meanwhile. */
module Exclusion {
  import opened Cluster
  import Lease
  import Lineage

  /** This primer is between acquire and release and its last grant has not lapsed. */
  predicate HoldsLease(s: State, i: Endpoint) {
    i in s.nodes && s.nodes[i].pc.Building? && s.now < s.nodes[i].leaseUntil
  }

  /** Free of the one event that can take a live lease away. The lock's value is only the endpoint, so a
    * release sent by an earlier process of the same endpoint looks like the present one's. */
  ghost predicate Fresh(s: State, l: Label)
    requires Enabled(s, l)
  {
    StaleRelease !in Faults(s, l)
  }

  ghost predicate FreshRun(c: Config, s: State, ls: seq<Label>)
    requires Valid(c, s, ls)
  {
    StaleRelease !in RunFaults(c, s, ls)
  }

  /** From sending the release on, a process never holds the lease again. */
  predicate Past(pc: Pc) {
    pc.Releasing? || pc.Hashing? || pc.Registering? || pc.Publishing? || pc.Serving? || pc.Down?
  }

  ghost predicate LeaseOk(c: Config, s: State, i: Endpoint)
    requires i in s.nodes
  {
    && s.nodes[i].leaseUntil <= s.now + c.ttl
    && (HoldsLease(s, i) ==>
          && s.entry.lock.Held?
          && s.entry.lock.holder == i
          && s.nodes[i].leaseUntil <= s.entry.lock.expiry)
  }

  ghost predicate SentOk(s: State, m: Msg) {
    && m.sender in s.nodes
    && m.life <= s.nodes[m.sender].life
    && (m.ReleaseMsg? && m.life == s.nodes[m.sender].life ==> Past(s.nodes[m.sender].pc))
  }

  ghost predicate Inv(c: Config, s: State) {
    && 0 <= c.ttl
    && (forall i :: i in s.nodes ==> LeaseOk(c, s, i))
    && (forall m :: m in s.sent ==> SentOk(s, m))
  }

  /** Only landed messages touch the lock or grant a lease. */
  lemma QuietStep(c: Config, s: State, l: Label, i: Endpoint)
    requires Enabled(s, l) && !l.Land? && i in s.nodes
    ensures var s' := Apply(c, s, l);
            && i in s'.nodes && s'.nodes.Keys == s.nodes.Keys
            && s'.nodes[i].leaseUntil == s.nodes[i].leaseUntil
            && s'.entry.lock == s.entry.lock
            && s.now <= s'.now
            && (s'.nodes[i].pc.Building? ==> s.nodes[i].pc.Building?)
  {
  }

  lemma LandedLock(c: Config, s: State, m: Msg, heard: bool)
    requires m.sender in s.nodes
    ensures Executed(c, s, m, heard).entry.lock ==
            if LockCommand(m).None? then s.entry.lock
            else Lease.Apply(s.entry.lock, s.now, c.ttl, LockCommand(m).value)
    ensures Executed(c, s, m, heard).now == s.now
    ensures Executed(c, s, m, heard).nodes.Keys == s.nodes.Keys
    ensures forall i :: i in s.nodes && i != m.sender ==> Executed(c, s, m, heard).nodes[i] == s.nodes[i]
  {
  }

  lemma LandedStep(c: Config, s: State, m: Msg, heard: bool, i: Endpoint)
    requires 0 <= c.ttl && m.sender in s.nodes && i in s.nodes && LeaseOk(c, s, i) && SentOk(s, m)
    requires m.ReleaseMsg? && s.nodes[m.sender].pc.Building? ==> s.nodes[m.sender].life == m.life
    ensures LeaseOk(c, Executed(c, s, m, heard), i)
  {
    LandedLock(c, s, m, heard);
    if i == m.sender {
      match m
      case AcquireMsg(_, _) =>
      case RenewMsg(_, _) =>
      case ReleaseMsg(_, _) =>
      case RecordMsg(_, _, _) =>
      case MemberMsg(_, _) =>
    }
  }

  lemma LeaseStep(c: Config, s: State, l: Label, i: Endpoint)
    requires Inv(c, s) && Enabled(s, l) && Fresh(s, l)
    requires i in s.nodes
    ensures i in Apply(c, s, l).nodes && LeaseOk(c, Apply(c, s, l), i)
  {
    assert LeaseOk(c, s, i);
    if l.Land? {
      assert SentOk(s, l.m);
      LandedLock(c, s, l.m, l.heard);
      LandedStep(c, s, l.m, l.heard, i);
    } else {
      QuietStep(c, s, l, i);
    }
  }

  /** A process moves on, and never back from past its release. */
  lemma OldMessagesStayOk(c: Config, s: State, l: Label, m: Msg)
    requires Enabled(s, l) && SentOk(s, m)
    ensures SentOk(Apply(c, s, l), m)
  {
  }

  lemma NewMessagesAreOk(c: Config, s: State, l: Label, m: Msg)
    requires Enabled(s, l) && m in Apply(c, s, l).sent - s.sent
    requires l.Land? ==> SentOk(s, l.m)
    ensures SentOk(Apply(c, s, l), m)
  {
  }

  lemma SentStep(c: Config, s: State, l: Label, m: Msg)
    requires Inv(c, s) && Enabled(s, l)
    requires m in Apply(c, s, l).sent
    ensures SentOk(Apply(c, s, l), m)
  {
    assert l.Land? ==> l.m in s.sent;
    hide Apply, Enabled, SentOk;
    if m in s.sent {
      OldMessagesStayOk(c, s, l, m);
    } else {
      NewMessagesAreOk(c, s, l, m);
    }
  }

  lemma InvStep(c: Config, s: State, l: Label)
    requires Inv(c, s) && Enabled(s, l) && Fresh(s, l)
    ensures Inv(c, Apply(c, s, l))
  {
    var s' := Apply(c, s, l);
    Lineage.OthersKept(c, s, l);
    forall i | i in s'.nodes
      ensures LeaseOk(c, s', i)
    {
      LeaseStep(c, s, l, i);
    }
    forall m | m in s'.sent
      ensures SentOk(s', m)
    {
      SentStep(c, s, l, m);
    }
  }

  lemma {:induction false} InvRun(c: Config, s: State, ls: seq<Label>)
    requires Inv(c, s) && Valid(c, s, ls) && FreshRun(c, s, ls)
    ensures Inv(c, Exec(c, s, ls))
    decreases |ls|
  {
    if ls != [] {
      InvStep(c, s, ls[0]);
      InvRun(c, Apply(c, s, ls[0]), ls[1..]);
    }
  }

  /** Mutual exclusion: at the end of every run (so at every point of every run) at most one primer is
    * building with an unexpired lease, and the store's lock then carries its name at least as long. */
  lemma AtMostOneLeaseHolder(c: Config, s: State, ls: seq<Label>, i: Endpoint, j: Endpoint)
    requires Lineage.Start(c, s) && Valid(c, s, ls) && FreshRun(c, s, ls)
    ensures HoldsLease(Exec(c, s, ls), i) && HoldsLease(Exec(c, s, ls), j) ==> i == j
    ensures HoldsLease(Exec(c, s, ls), i) ==>
              var t := Exec(c, s, ls);
              Lease.HeldBy(t.entry.lock, t.now, i) && t.nodes[i].leaseUntil <= t.entry.lock.expiry
  {
    InvRun(c, s, ls);
    var t := Exec(c, s, ls);
    if i in t.nodes { assert LeaseOk(c, t, i); }
    if j in t.nodes { assert LeaseOk(c, t, j); }
  }

  // ---------------------------------------------------------------- runs as traces of lock commands

  ghost function LockEvent(s: State, l: Label): seq<Lease.Timed> {
    if l.Land? && LockCommand(l.m).Some? then [Lease.At(s.now, LockCommand(l.m).value)] else []
  }

  /** The lock commands the store executed during a run, with their times. */
  ghost function LockTrace(c: Config, s: State, ls: seq<Label>): seq<Lease.Timed>
    requires Valid(c, s, ls)
    decreases |ls|
  {
    if ls == [] then []
    else LockEvent(s, ls[0]) + LockTrace(c, Apply(c, s, ls[0]), ls[1..])
  }

  lemma {:induction false} RunConcat(lock: Lease.Lock, ttl: int, a: seq<Lease.Timed>, b: seq<Lease.Timed>)
    ensures Lease.Run(lock, ttl, a + b) == Lease.Run(Lease.Run(lock, ttl, a), ttl, b)
  {
    if b == [] {
      assert a + b == a;
    } else {
      assert (a + b)[..|a + b| - 1] == a + b[..|b| - 1];
      RunConcat(lock, ttl, a, b[..|b| - 1]);
    }
  }

  /** Every run of the protocol moves the lock exactly as its trace of lock commands does, so all the
    * theorems of module Lease hold of it. */
  lemma {:induction false} LockFollowsItsTrace(c: Config, s: State, ls: seq<Label>)
    requires Valid(c, s, ls)
    ensures Exec(c, s, ls).entry.lock == Lease.Run(s.entry.lock, c.ttl, LockTrace(c, s, ls))
    decreases |ls|
  {
    if ls != [] {
      var s1 := Apply(c, s, ls[0]);
      var first := LockEvent(s, ls[0]);
      LockFollowsItsTrace(c, s1, ls[1..]);
      RunConcat(s.entry.lock, c.ttl, first, LockTrace(c, s1, ls[1..]));
      assert first != [] ==> first[..0] == [];
      assert Lease.Run(s.entry.lock, c.ttl, first) == s1.entry.lock;
    }
  }

  lemma {:induction false} TraceIsOrdered(c: Config, s: State, ls: seq<Label>)
    requires Valid(c, s, ls)
    ensures s.now <= Exec(c, s, ls).now
    ensures Lease.Ordered(LockTrace(c, s, ls))
    ensures forall k :: 0 <= k < |LockTrace(c, s, ls)| ==>
              s.now <= LockTrace(c, s, ls)[k].time <= Exec(c, s, ls).now
    decreases |ls|
  {
    if ls != [] {
      TraceIsOrdered(c, Apply(c, s, ls[0]), ls[1..]);
    }
  }

  lemma {:induction false} TraceConcat(c: Config, s: State, a: seq<Label>, b: seq<Label>)
    requires Valid(c, s, a) && Valid(c, Exec(c, s, a), b) && Valid(c, s, a + b)
    ensures LockTrace(c, s, a + b) == LockTrace(c, s, a) + LockTrace(c, Exec(c, s, a), b)
    decreases |a|
  {
    if a == [] {
      assert a + b == b;
    } else {
      var s1, rest := Apply(c, s, a[0]), a[1..];
      assert (a + b)[1..] == rest + b;
      TraceConcat(c, s1, rest, b);
      assert LockTrace(c, s, a + b) == LockEvent(s, a[0]) + LockTrace(c, s1, rest + b);
      assert LockTrace(c, s, a) == LockEvent(s, a[0]) + LockTrace(c, s1, rest);
    }
  }

  lemma HeartbeatPrefix(
    ttl: int, period: int, delay: int, i: Endpoint, granted: int, start: int,
    a: seq<Lease.Timed>, b: seq<Lease.Timed>, mid: int, until: int)
    requires Lease.Heartbeat(ttl, period, delay, i, granted, start, a + b, until)
    requires mid <= until
    requires forall k :: 0 <= k < |a| ==> a[k].time <= mid
    requires forall k :: 0 <= k < |b| ==> mid <= b[k].time
    ensures Lease.Heartbeat(ttl, period, delay, i, granted, start, a, mid)
  {
    assert forall k :: 0 <= k < |a| ==> a[k] == (a + b)[k];
    assert forall k :: |a| <= k < |a + b| ==> (a + b)[k] == b[k - |a|];
    forall k: nat | 1 <= k && Lease.Tick(start, period, k + 1) + delay <= mid
      ensures Lease.NotBothLost(a, i, start, period, delay, k)
    {
      assert Lease.Tick(start, period, k + 1) == Lease.Tick(start, period, k) + period;
      assert Lease.NotBothLost(a + b, i, start, period, delay, k);
      forall n: nat |
        && n <= k + 1
        && Lease.Landed(a + b, i, start, period, delay, n)
        && Lease.Tick(start, period, n) + delay <= mid
        ensures Lease.Landed(a, i, start, period, delay, n)
      {
        var j :| 0 <= j < |a + b| && Lease.LandedBy((a + b)[j], i, Lease.Tick(start, period, n), delay);
        assert Lease.LandedBy(a[j], i, Lease.Tick(start, period, n), delay);
      }
    }
  }

  lemma HeartbeatKeepsTheLock(
    c: Config, s: State, ls: seq<Label>, tr: seq<Lease.Timed>, t: State, period: int, delay: int, i: Endpoint,
    start: int)
    requires Valid(c, s, ls) && tr == LockTrace(c, s, ls) && t == Exec(c, s, ls)
    requires s.entry.lock == Lease.Held(i, s.now + c.ttl)
    requires Lease.Heartbeat(c.ttl, period, delay, i, s.now, start, tr, t.now)
    ensures Lease.HeldBy(t.entry.lock, t.now, i)
  {
    hide *;
    TraceIsOrdered(c, s, ls);
    LockFollowsItsTrace(c, s, ls);
    Lease.LeaseNeverLapses(c.ttl, period, delay, i, s.now, start, tr, t.now);
  }

  lemma NobodyStartsWhileHeld(c: Config, t: State, l: Label, i: Endpoint, j: Endpoint)
    requires Enabled(t, l) && Lease.HeldBy(t.entry.lock, t.now, i)
    requires j in t.nodes && !t.nodes[j].pc.Building?
    ensures j in Apply(c, t, l).nodes && !Apply(c, t, l).nodes[j].pc.Building?
  {
    if !l.Land? { QuietStep(c, t, l, j); }
  }

  lemma LastStep(c: Config, s: State, ls: seq<Label>)
    requires Valid(c, s, ls) && ls != []
    ensures var n := |ls| - 1;
            && Valid(c, s, ls[..n])
            && Enabled(Exec(c, s, ls[..n]), ls[n])
            && Exec(c, s, ls) == Apply(c, Exec(c, s, ls[..n]), ls[n])
            && Exec(c, s, ls[..n]).now <= Exec(c, s, ls).now
  {
    var n := |ls| - 1;
    ExecPrefix(c, s, ls, n);
    var t := Exec(c, s, ls[..n]);
    assert ls[n..] == [ls[n]];
    assert Exec(c, t, ls[n..]) == Exec(c, Apply(c, t, ls[n]), []);
    TraceIsOrdered(c, t, ls[n..]);
  }

  lemma HeartbeatOfPrefix(
    c: Config, s: State, ls: seq<Label>, period: int, delay: int, i: Endpoint, start: int)
    requires Valid(c, s, ls) && ls != []
    requires Lease.Heartbeat(c.ttl, period, delay, i, s.now, start, LockTrace(c, s, ls), Exec(c, s, ls).now)
    ensures var init := ls[..|ls| - 1];
            && Valid(c, s, init)
            && Lease.Heartbeat(c.ttl, period, delay, i, s.now, start, LockTrace(c, s, init), Exec(c, s, init).now)
  {
    var n := |ls| - 1;
    LastStep(c, s, ls);
    ExecPrefix(c, s, ls, n);
    var init, rest := ls[..n], ls[n..];
    var t := Exec(c, s, init);
    assert init + rest == ls;
    TraceConcat(c, s, init, rest);
    TraceIsOrdered(c, s, init);
    TraceIsOrdered(c, t, rest);
    HeartbeatPrefix(c.ttl, period, delay, i, s.now, start, LockTrace(c, s, init), LockTrace(c, t, rest),
                    t.now, Exec(c, s, ls).now);
  }

  /** Nobody else starts to build while a timely heartbeat runs: from the moment primer `i` was granted
    * the lease, under any interleaving, as long as it is heard often enough and has not released, the
    * lock stays its own and no other primer enters its build. */
  lemma {:induction false} HeartbeatExcludesOtherBuilders(
    c: Config, s: State, ls: seq<Label>, period: int, delay: int, i: Endpoint, start: int, j: Endpoint)
    requires Valid(c, s, ls) && s.entry.lock == Lease.Held(i, s.now + c.ttl)
    requires Lease.Heartbeat(c.ttl, period, delay, i, s.now, start, LockTrace(c, s, ls), Exec(c, s, ls).now)
    requires j != i && j in s.nodes && !s.nodes[j].pc.Building?
    ensures Lease.HeldBy(Exec(c, s, ls).entry.lock, Exec(c, s, ls).now, i)
    ensures j in Exec(c, s, ls).nodes && !Exec(c, s, ls).nodes[j].pc.Building?
    decreases |ls|
  {
    HeartbeatKeepsTheLock(c, s, ls, LockTrace(c, s, ls), Exec(c, s, ls), period, delay, i, start);
    if ls != [] {
      var init := ls[..|ls| - 1];
      LastStep(c, s, ls);
      HeartbeatOfPrefix(c, s, ls, period, delay, i, start);
      HeartbeatExcludesOtherBuilders(c, s, init, period, delay, i, start, j);
      NobodyStartsWhileHeld(c, Exec(c, s, init), ls[|ls| - 1], i, j);
    }
  }

  /** The build itself is over, or its process. */
  predicate Stops(l: Label, i: Endpoint) {
    (l.BuildEnd? || l.Crash?) && l.i == i
  }

  lemma RenewalIsNotRefused(c: Config, t: State, l: Label, i: Endpoint)
    requires Enabled(t, l) && Lease.HeldBy(t.entry.lock, t.now, i) && !Stops(l, i)
    requires i in t.nodes && t.nodes[i].pc == Building(true)
    ensures i in Apply(c, t, l).nodes && Apply(c, t, l).nodes[i].pc == Building(true)
  {
    Lineage.OthersKept(c, t, l);
  }

  /** The renewal loop does not stop by itself: while its renewals are timely none of them is refused, so it goes
    * on, under any interleaving, until the primer's own build is over or its process dies. */
  lemma {:induction false} TheRenewalLoopGoesOn(
    c: Config, s: State, ls: seq<Label>, period: int, delay: int, i: Endpoint, start: int)
    requires Valid(c, s, ls) && s.entry.lock == Lease.Held(i, s.now + c.ttl)
    requires Lease.Heartbeat(c.ttl, period, delay, i, s.now, start, LockTrace(c, s, ls), Exec(c, s, ls).now)
    requires i in s.nodes && s.nodes[i].pc == Building(true)
    requires forall k :: 0 <= k < |ls| ==> !Stops(ls[k], i)
    ensures i in Exec(c, s, ls).nodes && Exec(c, s, ls).nodes[i].pc == Building(true)
    decreases |ls|
  {
    if ls != [] {
      var init := ls[..|ls| - 1];
      LastStep(c, s, ls);
      HeartbeatOfPrefix(c, s, ls, period, delay, i, start);
      TheRenewalLoopGoesOn(c, s, init, period, delay, i, start);
      HeartbeatKeepsTheLock(c, s, init, LockTrace(c, s, init), Exec(c, s, init), period, delay, i, start);
      RenewalIsNotRefused(c, Exec(c, s, init), ls[|ls| - 1], i);
    }
  }
}
