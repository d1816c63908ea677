/** One primer's lifecycle against a store and a disk, with nobody else acting in between.
  *
  * The interleaving with other primers is the subject of module Cluster; this is the code path of one
  * process, with every failure of its environment as an input.
  */
module Orchestrator {
  import opened Prelude
  import Lease
  import Directory
  import Peer

  type Endpoint = Lease.Endpoint

  datatype Method = LocalHit | PulledFrom(peer: Endpoint) | BuiltLocally | PulledAfterWait(peer: Endpoint)

  /** One look at the directory followed by one pass over the peers. */
  datatype Pass = Pass(
    list: Directory.Link, zones: Directory.Link, sha: Directory.Link, serve: Endpoint -> Peer.Transfer)

  /** A build: whether it reported success, and the file it wrote, if any. */
  datatype Build = Build(ok: bool, output: Option<Bytes>)

  datatype World = World(
    ready: bool,                        // the store answers and the key can be computed
    first: Pass,
    lock: Directory.Link,
    ticks: seq<(nat, Directory.Link)>,  // heartbeat: time since the previous tick, fate of the renewal
    build: Build,
    release: Directory.Link,
    polls: seq<Pass>,                   // the passes that fit before the waiting deadline
    readable: bool,                     // the archive can be read back
    landed: nat,
    register: Directory.Link,
    listens: bool)                      // the peer server gets its port

  /** The digest used for verification: a failed read counts as "not set". */
  function Etalon(e: Directory.Entry, link: Directory.Link): Digest {
    if link.Answered? then Directory.Sha(e) else ""
  }

  /** The first peer whose transfer is accepted, as an index; |peers| when there is none. */
  function FirstGood(H: Peer.Hash, peers: seq<Endpoint>, serve: Endpoint -> Peer.Transfer, expected: Digest): (k: nat)
    ensures k <= |peers|
    ensures k < |peers| ==> Peer.Accepted(H, serve(peers[k]), expected)
    ensures forall j :: 0 <= j < k ==> !Peer.Accepted(H, serve(peers[j]), expected)
  {
    if peers == [] then 0
    else if Peer.Accepted(H, serve(peers[0]), expected) then 0
    else
      var k := FirstGood(H, peers[1..], serve, expected);
      assert forall j :: 1 <= j <= k ==> peers[j] == peers[1..][j - 1];
      k + 1
  }

  /** What `peer` serves in this pass comes whole and, if a digest could be read, has that digest. */
  predicate Delivers(H: Peer.Hash, pass: Pass, e: Directory.Entry, peer: Endpoint) {
    var t := pass.serve(peer);
    && t.Body? && t.copied && t.closed
    && (pass.sha.Answered? && Directory.Sha(e) != "" ==> t.readable && H(t.bytes) == Directory.Sha(e))
  }

  lemma DeliveriesAreAccepted(H: Peer.Hash, pass: Pass, e: Directory.Entry, peer: Endpoint)
    ensures Delivers(H, pass, e, peer) <==> Peer.Accepted(H, pass.serve(peer), Etalon(e, pass.sha))
  {
  }

  /** The file is the body `peer` served in this pass, and that transfer was good. */
  ghost predicate Pulled(H: Peer.Hash, file: Peer.File, pass: Pass, peer: Endpoint, e: Directory.Entry) {
    && peer in e.peers
    && Delivers(H, pass, e, peer)
    && file == Some(pass.serve(peer).bytes)
  }

  function Transfers(peers: seq<Endpoint>, serve: Endpoint -> Peer.Transfer): seq<Peer.Transfer> {
    seq(|peers|, i requires 0 <= i < |peers| => serve(peers[i]))
  }

  /** What one answered pass makes of the file: the order of the list decides which good peer comes first, and what
    * the failures before it, or all of them, leave behind. */
  ghost predicate PassGives(
    H: Peer.Hash, self: Endpoint, zone: string, pass: Pass, e: Directory.Entry, file: Peer.File,
    r: Option<Endpoint>, after: Peer.File)
  {
    exists peers ::
      && Directory.PeerList(peers, e.peers, self, zone, ZonesRead(e, pass))
      && PulledInOrder(H, peers, pass.serve, Etalon(e, pass.sha), file, r, after)
  }

  function ZonesRead(e: Directory.Entry, pass: Pass): Option<map<Endpoint, string>> {
    if pass.zones.Answered? then Some(e.zones) else None
  }

  ghost predicate PulledInOrder(
    H: Peer.Hash, peers: seq<Endpoint>, serve: Endpoint -> Peer.Transfer, expected: Digest, file: Peer.File,
    r: Option<Endpoint>, after: Peer.File)
  {
    var k := FirstGood(H, peers, serve, expected);
    if k < |peers| then r == Some(peers[k]) && after == Some(serve(peers[k]).bytes)
    else r.None? && after == Peer.SettledAll(H, file, Transfers(peers, serve), expected)
  }

  /** Some other primer on the list serves an acceptable archive, and the list was read. */
  ghost predicate Servable(H: Peer.Hash, self: Endpoint, pass: Pass, e: Directory.Entry) {
    && pass.list.Answered?
    && exists p :: p in e.peers && p != self && Delivers(H, pass, e, p)
  }

  /** Exactly when a primer without an archive gets one. */
  ghost predicate Obtains(H: Peer.Hash, self: Endpoint, w: World, e: Directory.Entry, now: int) {
    && w.first.list.Answered?
    && (|| Servable(H, self, w.first, e)
        || (&& w.lock.Answered?
            && if Lease.Succeeds(e.lock, now, Lease.Acquire(self)) then w.build.ok
               else exists i :: 0 <= i < |w.polls| && Servable(H, self, w.polls[i], e)))
  }

  /** A first pass that found nothing leads to the lock. */
  ghost predicate Asks(H: Peer.Hash, self: Endpoint, w: World, e: Directory.Entry) {
    w.first.list.Answered? && !Servable(H, self, w.first, e)
  }

  ghost predicate Granted(H: Peer.Hash, self: Endpoint, w: World, e: Directory.Entry, now: int) {
    Asks(H, self, w, e) && w.lock.Answered? && Lease.Succeeds(e.lock, now, Lease.Acquire(self))
  }

  /** The lock and the time after a build during which the heartbeat took `n` ticks, and the release. */
  predicate LockAfterBuild(self: Endpoint, w: World, now: int, ttl: int, n: nat, lock: Lease.Lock, clock: int)
    requires n <= |w.ticks|
  {
    var kept := Lease.Run(Lease.Held(self, now + ttl), ttl, Renewals(now, w.ticks[..n], self));
    && clock == TimeAfter(now, w.ticks[..n])
    && lock == if w.release.Undelivered? then kept else Lease.Apply(kept, clock, 0, Lease.Release(self))
  }

  lemma BuiltUnderTheLock(
    self: Endpoint, w: World, now: int, ttl: int, n: nat, granted: Directory.Entry, kept: Directory.Entry,
    after: Directory.Entry, clock: int)
    requires granted.lock == Lease.Held(self, now + ttl) && Beaten(kept, clock, granted, ttl, now, w.ticks, self, n)
    requires after == if w.release.Undelivered? then kept else Directory.Locked(kept, clock, 0, Lease.Release(self))
    ensures n <= |w.ticks| && LockAfterBuild(self, w, now, ttl, n, after.lock, clock)
    ensures after.(lock := Lease.Free) == granted.(lock := Lease.Free)
    ensures !w.release.Undelivered? ==> !Lease.HeldBy(after.lock, clock, self)
  {
  }

  /** The lock and the time after the attempt to get an archive, whether or not it succeeds. An acquire whose reply is
    * lost is not released; a granted one is, after a failed build too. */
  ghost predicate LeavesLock(
    H: Peer.Hash, self: Endpoint, w: World, e: Directory.Entry, now: int, ttl: int, lock: Lease.Lock, clock: int)
  {
    if Granted(H, self, w, e, now) then
      exists n: nat :: n <= |w.ticks| && LockAfterBuild(self, w, now, ttl, n, lock, clock)
    else
      && clock == now
      && lock == if Asks(H, self, w, e) && !w.lock.Undelivered? then Lease.Apply(e.lock, now, ttl, Lease.Acquire(self))
                 else e.lock
  }

  /** The commands of the registration pipeline that the store executes. */
  function Landing(w: World): nat {
    if w.register.Answered? then 3 else w.landed
  }

  /** Run gets as far as the digest of its archive. */
  ghost predicate Hashes(
    H: Peer.Hash, self: Endpoint, w: World, e: Directory.Entry, now: int, before: Peer.File, after: Peer.File)
  {
    w.ready && (Peer.Usable(before) || Obtains(H, self, w, e, now)) && after.Some? && w.readable
  }

  lemma LockIsApart(was: Directory.Entry, e: Directory.Entry)
    requires was.(lock := Lease.Free) == e.(lock := Lease.Free)
    ensures was.peers == e.peers && Directory.Sha(was) == Directory.Sha(e)
  {
  }

  lemma DigestIsAField(size: string, registeredAt: string, jvm: string, arch: string, sha: Digest)
    ensures var fields := Directory.Fields(size, registeredAt, jvm, arch, sha);
            "sha256" in fields && fields["sha256"] == sha
  {
  }

  /** What the executed part of the pipeline makes of an entry; the lock has no part in it. */
  lemma WhatRegistrationLeaves(
    was: Directory.Entry, e: Directory.Entry, fields: map<string, string>, self: Endpoint, zone: string, landed: nat)
    requires was.(lock := Lease.Free) == e.(lock := Lease.Free) && "sha256" in fields
    ensures var after := Directory.Registered(e, fields, self, zone, landed);
            && after.(lock := Lease.Free)
               == Directory.Registered(was, fields, self, zone, landed).(lock := Lease.Free)
            && after.lock == e.lock
            && after.peers == was.peers + (if landed >= 2 then {self} else {})
            && Directory.Sha(after) == (if landed >= 1 then fields["sha256"] else Directory.Sha(was))
  {
  }

  /** Where a primer's archive comes from, by the method it reports. */
  ghost predicate Outcome(
    H: Peer.Hash, self: Endpoint, zone: string, w: World, e: Directory.Entry, now: int, file: Peer.File,
    m: Method, after: Peer.File)
  {
    match m
    case LocalHit => Peer.Usable(file) && after == file
    case PulledFrom(p) =>
      && !Peer.Usable(file) && w.first.list.Answered?
      && PassGives(H, self, zone, w.first, e, file, Some(p), after)
    case BuiltLocally =>
      && !Peer.Usable(file) && w.first.list.Answered?
      && Lease.Succeeds(e.lock, now, Lease.Acquire(self)) && w.build.ok
      && exists left ::
           && PassGives(H, self, zone, w.first, e, file, None, left)
           && after == if w.build.output.Some? then w.build.output else left
    case PulledAfterWait(p) =>
      && !Peer.Usable(file) && w.first.list.Answered?
      && !Lease.Succeeds(e.lock, now, Lease.Acquire(self))
      && exists left, before, i ::
           && PassGives(H, self, zone, w.first, e, file, None, left)
           && 0 <= i < |w.polls| && w.polls[i].list.Answered?
           && PassGives(H, self, zone, w.polls[i], e, before, Some(p), after)
  }

  /** Position `k` of the list is the first whose transfer came whole and with the digest that was read. */
  ghost predicate FirstDelivery(H: Peer.Hash, pass: Pass, e: Directory.Entry, peers: seq<Endpoint>, k: nat) {
    && k < |peers| && Delivers(H, pass, e, peers[k])
    && forall j :: 0 <= j < k ==> !Delivers(H, pass, e, peers[j])
  }

  /** A pass ends with the first good delivery in some list of the other members, or there is none on it. */
  lemma APassTakesTheFirstDelivery(
    H: Peer.Hash, self: Endpoint, zone: string, pass: Pass, e: Directory.Entry, file: Peer.File,
    r: Option<Endpoint>, after: Peer.File)
    returns (peers: seq<Endpoint>, k: nat)
    requires PassGives(H, self, zone, pass, e, file, r, after)
    ensures Directory.PeerList(peers, e.peers, self, zone, ZonesRead(e, pass))
    ensures r.Some? ==> FirstDelivery(H, pass, e, peers, k) && r.value == peers[k]
    ensures r.Some? ==> r.value != self && Pulled(H, after, pass, r.value, e)
    ensures r.Some? && pass.sha.Answered? && Directory.Sha(e) != "" ==> H(after.value) == Directory.Sha(e)
    ensures r.None? ==> forall p :: p in e.peers && p != self ==> !Delivers(H, pass, e, p)
  {
    peers :|
      && Directory.PeerList(peers, e.peers, self, zone, ZonesRead(e, pass))
      && PulledInOrder(H, peers, pass.serve, Etalon(e, pass.sha), file, r, after);
    k := FirstGood(H, peers, pass.serve, Etalon(e, pass.sha));
    forall p
      ensures Delivers(H, pass, e, p) <==> Peer.Accepted(H, pass.serve(p), Etalon(e, pass.sha))
    {
      DeliveriesAreAccepted(H, pass, e, p);
    }
    assert k < |peers| ==> peers[k] in peers;
    forall p | r.None? && p in e.peers && p != self
      ensures !Delivers(H, pass, e, p)
    {
      assert p in peers;
    }
  }

  /** Whatever a primer reports to have pulled, directly or after waiting, is one peer's whole body, and has the stored
    * digest if that pass could read one. */
  lemma EveryPullHasTheStoredDigest(
    H: Peer.Hash, self: Endpoint, zone: string, w: World, e: Directory.Entry, now: int, file: Peer.File,
    m: Method, after: Peer.File)
    requires Outcome(H, self, zone, w, e, now, file, m, after)
    ensures m.PulledFrom? ==>
              && m.peer != self && Pulled(H, after, w.first, m.peer, e)
              && (w.first.sha.Answered? && Directory.Sha(e) != "" ==> H(after.value) == Directory.Sha(e))
    ensures m.PulledAfterWait? ==>
              exists i ::
                && 0 <= i < |w.polls| && w.polls[i].list.Answered?
                && m.peer != self && Pulled(H, after, w.polls[i], m.peer, e)
                && (w.polls[i].sha.Answered? && Directory.Sha(e) != "" ==> H(after.value) == Directory.Sha(e))
  {
    hide PassGives, Delivers;
    if m.PulledFrom? {
      var peers, k := APassTakesTheFirstDelivery(H, self, zone, w.first, e, file, Some(m.peer), after);
    } else if m.PulledAfterWait? {
      var left, before, i :|
        && PassGives(H, self, zone, w.first, e, file, None, left)
        && 0 <= i < |w.polls| && w.polls[i].list.Answered?
        && PassGives(H, self, zone, w.polls[i], e, before, Some(m.peer), after);
      var peers, k := APassTakesTheFirstDelivery(H, self, zone, w.polls[i], e, before, Some(m.peer), after);
    }
  }

  lemma ALocalHitIsAnOutcome(
    H: Peer.Hash, self: Endpoint, zone: string, w: World, e: Directory.Entry, now: int, file: Peer.File)
    requires Peer.Usable(file)
    ensures Outcome(H, self, zone, w, e, now, file, LocalHit, file)
  {
  }

  // ---------------------------------------------------------------- the heartbeat on values

  function TimeAfter(now: int, ticks: seq<(nat, Directory.Link)>): int {
    if ticks == [] then now else TimeAfter(now, ticks[..|ticks| - 1]) + ticks[|ticks| - 1].0
  }

  /** The renewals that reached the store, with their times. */
  function Renewals(now: int, ticks: seq<(nat, Directory.Link)>, self: Endpoint): seq<Lease.Timed> {
    if ticks == [] then []
    else
      var before := Renewals(now, ticks[..|ticks| - 1], self);
      if ticks[|ticks| - 1].1.Undelivered? then before
      else before + [Lease.At(TimeAfter(now, ticks), Lease.Renew(self))]
  }

  /** An entry after `n` ticks: the lock as the renewals left it, everything else as it was. */
  ghost predicate Beaten(
    e: Directory.Entry, clock: int, was: Directory.Entry, ttl: int, now: int, ticks: seq<(nat, Directory.Link)>,
    self: Endpoint, n: nat)
  {
    && n <= |ticks|
    && clock == TimeAfter(now, ticks[..n])
    && e == was.(lock := Lease.Run(was.lock, ttl, Renewals(now, ticks[..n], self)))
  }

  /** The loop hears at tick `k` that the lock is no longer its own. */
  ghost predicate Refused(
    lock: Lease.Lock, ttl: int, now: int, ticks: seq<(nat, Directory.Link)>, self: Endpoint, k: nat)
    requires k < |ticks|
  {
    var left := Lease.Run(lock, ttl, Renewals(now, ticks[..k], self));
    && ticks[k].1.Answered?
    && !(left.Held? && left.holder == self && TimeAfter(now, ticks[..k + 1]) < left.expiry)
  }

  lemma {:induction false} RenewalsOnly(now: int, ticks: seq<(nat, Directory.Link)>, self: Endpoint)
    ensures forall i :: 0 <= i < |Renewals(now, ticks, self)| ==> Renewals(now, ticks, self)[i].cmd == Lease.Renew(self)
  {
    if ticks != [] {
      RenewalsOnly(now, ticks[..|ticks| - 1], self);
    }
  }

  /** A heartbeat does not bring a lock back, whoever had it. */
  lemma BeatsReviveNothing(
    e: Directory.Entry, clock: int, was: Directory.Entry, ttl: int, now: int, ticks: seq<(nat, Directory.Link)>,
    self: Endpoint, n: nat)
    requires Beaten(e, clock, was, ttl, now, ticks, self, n)
    ensures e.lock.Held? ==> was.lock.Held? && e.lock.holder == was.lock.holder
  {
    RenewalsOnly(now, ticks[..n], self);
    Lease.OnlyAnAcquireMakesALock(was.lock, ttl, Renewals(now, ticks[..n], self));
  }

  /** Ticks come at least three to a TTL, and no two in a row are lost. */
  predicate Steady(ttl: int, ticks: seq<(nat, Directory.Link)>) {
    && (forall k :: 0 <= k < |ticks| ==> 3 * ticks[k].0 <= ttl)
    && (forall k :: 0 <= k < |ticks| - 1 ==> !(ticks[k].1.Undelivered? && ticks[k + 1].1.Undelivered?))
  }

  /** Then the builder still has its lock after any number of ticks, for at least two thirds of the TTL, and hears of no
    * refusal. */
  lemma {:induction false} ASteadyHeartbeatKeepsTheLock(
    granted: Lease.Lock, now: int, ttl: int, ticks: seq<(nat, Directory.Link)>, self: Endpoint)
    requires granted == Lease.Held(self, now + ttl) && 0 < ttl && Steady(ttl, ticks)
    ensures var lock := Lease.Run(granted, ttl, Renewals(now, ticks, self));
            && lock.Held? && lock.holder == self
            && 3 * (lock.expiry - TimeAfter(now, ticks))
               >= (if ticks != [] && ticks[|ticks| - 1].1.Undelivered? then 2 else 3) * ttl
    ensures forall k :: 0 <= k < |ticks| ==> !Refused(granted, ttl, now, ticks, self, k)
  {
    if ticks != [] {
      var n := |ticks| - 1;
      var init := ticks[..n];
      ASteadyHeartbeatKeepsTheLock(granted, now, ttl, init, self);
      var before, at := Renewals(now, init, self), TimeAfter(now, ticks);
      assert (before + [Lease.At(at, Lease.Renew(self))])[..|before|] == before;
      assert ticks[..n + 1] == ticks;
      forall k | 0 <= k < n
        ensures !Refused(granted, ttl, now, ticks, self, k)
      {
        assert init[..k] == ticks[..k] && init[..k + 1] == ticks[..k + 1];
        assert !Refused(granted, ttl, now, init, self, k);
      }
    }
  }

  lemma NotBeatenYet(e: Directory.Entry, ttl: int, now: int, ticks: seq<(nat, Directory.Link)>, self: Endpoint)
    ensures Beaten(e, now, e, ttl, now, ticks, self, 0)
  {
    assert ticks[..0] == [];
  }

  lemma OneMoreBeat(
    e: Directory.Entry, clock: int, was: Directory.Entry, ttl: int, now: int, ticks: seq<(nat, Directory.Link)>,
    self: Endpoint, k: nat)
    requires k < |ticks| && Beaten(e, clock, was, ttl, now, ticks, self, k)
    ensures var at := clock + ticks[k].0;
            && Beaten(if ticks[k].1.Undelivered? then e else Directory.Locked(e, at, ttl, Lease.Renew(self)), at,
                      was, ttl, now, ticks, self, k + 1)
            && (Refused(was.lock, ttl, now, ticks, self, k)
                <==> ticks[k].1.Answered? && !Lease.Succeeds(e.lock, at, Lease.Renew(self)))
  {
    hide Lease.Apply;
    assert ticks[..k + 1][..k] == ticks[..k];
    var before, at := Renewals(now, ticks[..k], self), TimeAfter(now, ticks[..k + 1]);
    assert (before + [Lease.At(at, Lease.Renew(self))])[..|before|] == before;
  }

  class Orchestrator {
    const H: Peer.Hash
    const self: Endpoint
    const zone: string
    const lockTTL: int
    const store: Directory.Store
    const disk: Peer.Disk
    var registeredKey: Directory.Key
    var registeredEndpoint: string

    constructor (H: Peer.Hash, self: Endpoint, zone: string, lockTTL: int, store: Directory.Store, disk: Peer.Disk)
      ensures this.H == H && this.self == self && this.zone == zone && this.lockTTL == lockTTL
      ensures this.store == store && this.disk == disk
      ensures registeredKey == "" && registeredEndpoint == ""
    {
      this.H, this.self, this.zone, this.lockTTL := H, self, zone, lockTTL;
      this.store, this.disk := store, disk;
      registeredKey, registeredEndpoint := "", "";
    }

    /** The pull loop: ends at the first accepted transfer, which is then exactly the file's content. */
    method PullLoop(peers: seq<Endpoint>, serve: Endpoint -> Peer.Transfer, expected: Digest)
      returns (r: Option<Endpoint>)
      modifies disk
      ensures var k := FirstGood(H, peers, serve, expected);
              if k < |peers| then
                && r == Some(peers[k])
                && disk.file == Some(serve(peers[k]).bytes)
                && (expected != "" ==> H(disk.file.value) == expected)
              else
                && r.None?
                && disk.file == Peer.SettledAll(H, old(disk.file), Transfers(peers, serve), expected)
                && Peer.NoneAccepted(H, Transfers(peers, serve), expected)
      ensures r.None? && !Peer.Usable(old(disk.file)) ==>
                (Peer.Usable(disk.file) <==> exists k: nat :: Peer.Litter(Transfers(peers, serve), k))
    {
      var k := FirstGood(H, peers, serve, expected);
      var ts := Transfers(peers, serve);
      var i := 0;
      while i < |peers|
        invariant 0 <= i <= |peers| && i <= k
        invariant disk.file == Peer.SettledAll(H, old(disk.file), ts[..i], expected)
      {
        assert ts[..i + 1][..i] == ts[..i] && ts[i] == serve(peers[i]);
        var n := disk.PullFromPeer(H, serve(peers[i]), expected);
        if n.Ok? {
          return Some(peers[i]);
        }
        i := i + 1;
      }
      assert ts[..|peers|] == ts;
      if !Peer.Usable(old(disk.file)) {
        Peer.FailedPullsLeaveNothingUsable(H, old(disk.file), ts, expected);
      }
      return None;
    }

    /** One look at the directory, then the loop. Err is a failed listing. */
    method PullPass(key: Directory.Key, pass: Pass) returns (r: Result<Option<Endpoint>>)
      modifies disk
      ensures r.Err? <==> !pass.list.Answered?
      ensures r.Err? ==> disk.file == old(disk.file)
      ensures r.Ok? ==> PassGives(H, self, zone, pass, store.EntryOf(key), old(disk.file), r.value, disk.file)
      ensures r.Ok? && r.value.Some? ==>
                && r.value.value != self && Pulled(H, disk.file, pass, r.value.value, store.EntryOf(key))
                && (pass.sha.Answered? && Directory.Sha(store.EntryOf(key)) != "" ==>
                      H(disk.file.value) == Directory.Sha(store.EntryOf(key)))
      ensures r.Ok? && r.value.Some? <==> Servable(H, self, pass, store.EntryOf(key))
    {
      ghost var e := store.EntryOf(key);
      var listed := store.ListPeersZoneAware(key, self, zone, pass.list, pass.zones);
      if listed.Err? {
        return Err;
      }
      ghost var reply :|
        && Directory.Enumerates(reply, e.peers)
        && listed.value == Directory.PeerOrder(reply, self, zone, ZonesRead(e, pass));
      Directory.PeerOrderIsAPeerList(reply, e.peers, self, zone, ZonesRead(e, pass));
      hide Directory.PeerList, Directory.Enumerates, Directory.PeerOrder, Delivers;
      var sha := store.ArchiveSHA256(key, pass.sha);
      var etalon := if sha.Ok? then sha.value else "";
      var pulled := PullLoop(listed.value, pass.serve, etalon);
      assert PassGives(H, self, zone, pass, e, old(disk.file), pulled, disk.file);
      ghost var peers, k := APassTakesTheFirstDelivery(H, self, zone, pass, e, old(disk.file), pulled, disk.file);
      return Ok(pulled);
    }

    /** The renewal goroutine while the build runs: one renewal per tick. It stops when it hears that the lock is no
      * longer its own, and only then; an error does not stop it. `n` counts the ticks it took. */
    method Heartbeat(key: Directory.Key, ticks: seq<(nat, Directory.Link)>) returns (ghost n: nat)
      modifies store
      ensures Beaten(store.EntryOf(key), store.clock, old(store.EntryOf(key)), lockTTL, old(store.clock), ticks,
                     self, n)
      ensures store.EntryOf(key).lock.Held? ==>
                && old(store.EntryOf(key)).lock.Held?
                && store.EntryOf(key).lock.holder == old(store.EntryOf(key)).lock.holder
      ensures forall k :: 0 <= k < n - 1 ==>
                !Refused(old(store.EntryOf(key)).lock, lockTTL, old(store.clock), ticks, self, k)
      ensures n < |ticks| ==>
                n > 0 && Refused(old(store.EntryOf(key)).lock, lockTTL, old(store.clock), ticks, self, n - 1)
      ensures forall k: Directory.Key :: k != key ==> store.EntryOf(k) == old(store.EntryOf(k))
    {
      hide Beaten, Refused, Directory.Locked, Lease.Succeeds;
      ghost var was, now := store.EntryOf(key), store.clock;
      NotBeatenYet(was, lockTTL, now, ticks, self);
      n := 0;
      var i := 0;
      while i < |ticks|
        invariant n == i <= |ticks| && Beaten(store.EntryOf(key), store.clock, was, lockTTL, now, ticks, self, i)
        invariant forall k :: 0 <= k < i ==> !Refused(was.lock, lockTTL, now, ticks, self, k)
        invariant forall k: Directory.Key :: k != key ==> store.EntryOf(k) == old(store.EntryOf(k))
      {
        OneMoreBeat(store.EntryOf(key), store.clock, was, lockTTL, now, ticks, self, i);
        store.clock := store.clock + ticks[i].0;
        var ok := store.RenewBuildLock(key, self, lockTTL, ticks[i].1);
        n := i + 1;
        if ok == Ok(false) {
          break;
        }
        i := i + 1;
      }
      BeatsReviveNothing(store.EntryOf(key), store.clock, was, lockTTL, now, ticks, self, n);
    }

    method AcquireRemoteOrBuild(key: Directory.Key, w: World) returns (r: Result<Method>)
      requires !Peer.Usable(disk.file)
      modifies store, disk
      ensures store.EntryOf(key).(lock := Lease.Free) == old(store.EntryOf(key)).(lock := Lease.Free)
      ensures forall k: Directory.Key :: k != key ==> store.EntryOf(k) == old(store.EntryOf(k))
      ensures r.Ok? <==> Obtains(H, self, w, old(store.EntryOf(key)), old(store.clock))
      // case by case: a good delivery in the first pass, a free or lapsed lock, a good delivery in some poll
      ensures var e, now := old(store.EntryOf(key)), old(store.clock);
              var served := Servable(H, self, w.first, e);
              var asks := w.first.list.Answered? && !served;
              var vacant := e.lock.Free? || e.lock.expiry <= now;
              var polled := exists i :: 0 <= i < |w.polls| && Servable(H, self, w.polls[i], e);
              && (r.Ok? && r.value.PulledFrom? <==> served)
              && (r == Ok(BuiltLocally) <==> asks && w.lock.Answered? && vacant && w.build.ok)
              && (r.Ok? && r.value.PulledAfterWait? <==> asks && w.lock.Answered? && !vacant && polled)
              && (r == Ok(BuiltLocally) && w.build.output.Some? ==> disk.file == w.build.output)
              && (asks && w.lock.ReplyLost? && vacant ==> store.EntryOf(key).lock == Lease.Held(self, now + lockTTL))
      ensures r.Ok? ==> r.value != LocalHit
      ensures r.Ok? ==>
                Outcome(H, self, zone, w, old(store.EntryOf(key)), old(store.clock), old(disk.file), r.value, disk.file)
      ensures r.Ok? && r.value.PulledFrom? ==>
                && r.value.peer != self
                && Pulled(H, disk.file, w.first, r.value.peer, old(store.EntryOf(key)))
                && (w.first.sha.Answered? && Directory.Sha(old(store.EntryOf(key))) != "" ==>
                      H(disk.file.value) == Directory.Sha(old(store.EntryOf(key))))
                && store.EntryOf(key).lock == old(store.EntryOf(key)).lock
      ensures LeavesLock(H, self, w, old(store.EntryOf(key)), old(store.clock), lockTTL,
                         store.EntryOf(key).lock, store.clock)
      ensures Granted(H, self, w, old(store.EntryOf(key)), old(store.clock)) && !w.release.Undelivered? ==>
                !Lease.HeldBy(store.EntryOf(key).lock, store.clock, self)
      ensures r.Ok? && r.value.PulledAfterWait? ==>
                exists i ::
                  && 0 <= i < |w.polls|
                  && Pulled(H, disk.file, w.polls[i], r.value.peer, old(store.EntryOf(key)))
                  && (w.polls[i].sha.Answered? && Directory.Sha(old(store.EntryOf(key))) != "" ==>
                        H(disk.file.value) == Directory.Sha(old(store.EntryOf(key))))
    {
      hide PassGives, Servable, Pulled, LockAfterBuild;
      var pulled := PullPass(key, w.first);
      if pulled.Err? {
        return Err;
      }
      if pulled.value.Some? {
        return Ok(PulledFrom(pulled.value.value));
      }
      var got := store.TryAcquireBuildLock(key, self, lockTTL, w.lock);
      if got.Err? {
        return Err;
      }
      if got.value {
        ghost var left, now := disk.file, store.clock;
        ghost var granted := store.EntryOf(key);
        ghost var n := Heartbeat(key, w.ticks);
        ghost var kept := store.EntryOf(key);
        if w.build.output.Some? {
          disk.file := w.build.output;
        }
        var released := store.ReleaseBuildLock(key, self, w.release);
        BuiltUnderTheLock(self, w, now, lockTTL, n, granted, kept, store.EntryOf(key), store.clock);
        return if w.build.ok then Ok(BuiltLocally) else Err;
      }
      r := WaitForPeer(key, w.polls);
    }

    method WaitForPeer(key: Directory.Key, polls: seq<Pass>) returns (r: Result<Method>)
      modifies disk
      ensures r.Ok? <==> exists i :: 0 <= i < |polls| && Servable(H, self, polls[i], store.EntryOf(key))
      ensures r.Ok? ==>
                && r.value.PulledAfterWait?
                && exists i, before ::
                     && 0 <= i < |polls| && polls[i].list.Answered?
                     && Pulled(H, disk.file, polls[i], r.value.peer, store.EntryOf(key))
                     && (polls[i].sha.Answered? && Directory.Sha(store.EntryOf(key)) != "" ==>
                           H(disk.file.value) == Directory.Sha(store.EntryOf(key)))
                     && PassGives(H, self, zone, polls[i], store.EntryOf(key), before, Some(r.value.peer), disk.file)
    {
      hide Servable, PassGives, Pulled;
      for n := 0 to |polls|
        invariant forall i :: 0 <= i < n ==> !Servable(H, self, polls[i], store.EntryOf(key))
      {
        ghost var before := disk.file;
        var pulled := PullPass(key, polls[n]);
        if pulled.Ok? && pulled.value.Some? {
          return Ok(PulledAfterWait(pulled.value.value));
        }
      }
      return Err;
    }

    /** The whole life up to serving, and exactly when it gets there. An archive that was read back is registered as
      * far as the pipeline gets, and a completed registration is remembered for the shutdown; neither is undone when
      * the pipeline breaks off or the server fails to listen, and Run reports an error. */
    method Run(key: Directory.Key, size: string, registeredAt: string, jvm: string, arch: string, w: World)
      returns (r: Result<Method>)
      modifies this, store, disk
      ensures var hashed := Hashes(H, self, w, old(store.EntryOf(key)), old(store.clock), old(disk.file), disk.file);
              var registered := hashed && w.register.Answered?;
              && (r.Ok? <==> registered && w.listens)
              && registeredKey == (if registered then key else old(registeredKey))
              && registeredEndpoint == (if registered then self else old(registeredEndpoint))
      ensures r.Ok? <==>
                && w.ready
                && (Peer.Usable(old(disk.file)) || Obtains(H, self, w, old(store.EntryOf(key)), old(store.clock)))
                && disk.file.Some? && w.readable && w.register.Answered? && w.listens
      // the whole entry but for the lock
      ensures var e := old(store.EntryOf(key));
              store.EntryOf(key).(lock := Lease.Free) == (
                if Hashes(H, self, w, e, old(store.clock), old(disk.file), disk.file) then
                  Directory.Registered(e, Directory.Fields(size, registeredAt, jvm, arch, H(disk.file.value)), self,
                                       zone, Landing(w)).(lock := Lease.Free)
                else e.(lock := Lease.Free))
      // so the directory names this primer, and has its digest, exactly as far as the pipeline got
      ensures var e := old(store.EntryOf(key));
              var hashed := Hashes(H, self, w, e, old(store.clock), old(disk.file), disk.file);
              && store.EntryOf(key).peers == e.peers + (if hashed && Landing(w) >= 2 then {self} else {})
              && Directory.Sha(store.EntryOf(key))
                 == (if hashed && Landing(w) >= 1 then H(disk.file.value) else Directory.Sha(e))
      // a failed Run has put this primer's name there exactly when the membership landed and the pipeline was not
      // answered, or the server does not listen
      ensures r.Err? && self !in old(store.EntryOf(key)).peers ==>
                (self in store.EntryOf(key).peers
                 <==> && Hashes(H, self, w, old(store.EntryOf(key)), old(store.clock), old(disk.file), disk.file)
                      && if w.register.Answered? then !w.listens else w.landed >= 2)
      ensures if w.ready && !Peer.Usable(old(disk.file)) then
                LeavesLock(H, self, w, old(store.EntryOf(key)), old(store.clock), lockTTL,
                           store.EntryOf(key).lock, store.clock)
              else store.EntryOf(key).lock == old(store.EntryOf(key)).lock && store.clock == old(store.clock)
      ensures r.Ok? ==>
                Outcome(H, self, zone, w, old(store.EntryOf(key)), old(store.clock), old(disk.file), r.value, disk.file)
      // a pulled file has the stored digest, if the digest could be read for the pass it was pulled in
      ensures r.Ok? && r.value.PulledFrom? ==>
                && Pulled(H, disk.file, w.first, r.value.peer, old(store.EntryOf(key)))
                && (w.first.sha.Answered? && Directory.Sha(old(store.EntryOf(key))) != "" ==>
                      H(disk.file.value) == Directory.Sha(old(store.EntryOf(key))))
      ensures r.Ok? && r.value.PulledAfterWait? ==>
                exists i ::
                  && 0 <= i < |w.polls|
                  && Pulled(H, disk.file, w.polls[i], r.value.peer, old(store.EntryOf(key)))
                  && (w.polls[i].sha.Answered? && Directory.Sha(old(store.EntryOf(key))) != "" ==>
                        H(disk.file.value) == Directory.Sha(old(store.EntryOf(key))))
      ensures Peer.Usable(old(disk.file)) ==> disk.file == old(disk.file) && (r.Ok? ==> r.value == LocalHit)
      ensures forall k: Directory.Key :: k != key ==> store.EntryOf(k) == old(store.EntryOf(k))
    {
      hide Obtains, Outcome, LeavesLock, Pulled, Directory.Fields, Directory.Registered, Directory.Sha;
      ghost var e := store.EntryOf(key);
      if !w.ready {
        return Err;
      }
      if Peer.Usable(disk.file) {
        r := Ok(LocalHit);
        ALocalHitIsAnOutcome(H, self, zone, w, store.EntryOf(key), store.clock, disk.file);
      } else {
        r := AcquireRemoteOrBuild(key, w);
        LockIsApart(e, store.EntryOf(key));
        if r.Err? {
          return;
        }
      }
      if disk.file.Some? {
        ghost var fields := Directory.Fields(size, registeredAt, jvm, arch, H(disk.file.value));
        DigestIsAField(size, registeredAt, jvm, arch, H(disk.file.value));
        WhatRegistrationLeaves(e, store.EntryOf(key), fields, self, zone, Landing(w));
      }
      var registered := RegisterArchive(key, size, registeredAt, jvm, arch, w);
      if !registered || !w.listens {
        return Err;
      }
    }

    /** Hash what is on disk, register it as far as the pipeline gets, remember a completed registration. */
    method RegisterArchive(key: Directory.Key, size: string, registeredAt: string, jvm: string, arch: string, w: World)
      returns (ok: bool)
      modifies this, store
      ensures ok <==> disk.file.Some? && w.readable && w.register.Answered?
      ensures store.clock == old(store.clock)
      ensures store.EntryOf(key) == (
                if disk.file.Some? && w.readable then
                  Directory.Registered(old(store.EntryOf(key)),
                                       Directory.Fields(size, registeredAt, jvm, arch, H(disk.file.value)), self, zone,
                                       Landing(w))
                else old(store.EntryOf(key)))
      ensures registeredKey == (if ok then key else old(registeredKey))
      ensures registeredEndpoint == (if ok then self else old(registeredEndpoint))
      ensures forall k: Directory.Key :: k != key ==> store.EntryOf(k) == old(store.EntryOf(k))
    {
      if disk.file.None? || !w.readable {
        return false;
      }
      var sha := H(disk.file.value);
      var registered := store.Register(key, self, size, registeredAt, jvm, arch, sha, zone, w.landed, w.register);
      if registered.Err? {
        return false;
      }
      registeredKey, registeredEndpoint := key, self;
      return true;
    }

    /** Removes exactly this endpoint, and only after a completed registration. */
    method GracefulShutdown(link: Directory.Link)
      modifies store
      ensures registeredKey == "" || registeredEndpoint == "" || link.Undelivered? ==>
                forall k: Directory.Key :: store.EntryOf(k) == old(store.EntryOf(k))
      ensures registeredKey != "" && registeredEndpoint != "" && !link.Undelivered? ==>
                && store.EntryOf(registeredKey)
                   == old(store.EntryOf(registeredKey)).(
                        peers := old(store.EntryOf(registeredKey)).peers - {registeredEndpoint})
                && forall k: Directory.Key :: k != registeredKey ==> store.EntryOf(k) == old(store.EntryOf(k))
    {
      if registeredKey == "" || registeredEndpoint == "" {
        return;
      }
      var gone := store.Unregister(registeredKey, registeredEndpoint, link);
    }
  }
}
