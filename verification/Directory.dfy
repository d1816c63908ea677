/** The Valkey directory: what is stored per archive key, the commands the primers send, and the
  * zone-aware order of the peer list.
  */
module Directory {
  import opened Prelude
  import Lease

  type Endpoint = Lease.Endpoint

  // ---------------------------------------------------------------- one archive's records

  datatype Entry = Entry(
    meta: map<string, string>,
    peers: set<Endpoint>,
    zones: map<Endpoint, string>,
    lock: Lease.Lock)

  /** The stored digest, or "" when the archive has none (never registered, or by an old primer). */
  function Sha(e: Entry): Digest {
    if "sha256" in e.meta then e.meta["sha256"] else ""
  }

  function Fields(size: string, registeredAt: string, jvm: string, arch: string, sha: Digest): map<string, string> {
    map["size" := size, "registered_at" := registeredAt, "jvm" := jvm, "arch" := arch, "sha256" := sha]
  }

  function WithMeta(e: Entry, fields: map<string, string>): Entry {
    e.(meta := e.meta + fields)
  }

  function WithPeer(e: Entry, ep: Endpoint): Entry {
    e.(peers := e.peers + {ep})
  }

  function WithZone(e: Entry, ep: Endpoint, zone: string): Entry {
    e.(zones := e.zones[ep := zone])
  }

  function WithoutPeer(e: Entry, ep: Endpoint): Entry {
    e.(peers := e.peers - {ep})
  }

  function Locked(e: Entry, now: int, ttl: int, cmd: Lease.Command): Entry {
    e.(lock := Lease.Apply(e.lock, now, ttl, cmd))
  }

  /** The first `landed` commands of the registration pipeline. */
  function Registered(
    e: Entry, fields: map<string, string>, ep: Endpoint, zone: string, landed: nat): Entry
  {
    var e1 := if landed >= 1 then WithMeta(e, fields) else e;
    var e2 := if landed >= 2 then WithPeer(e1, ep) else e1;
    if landed >= 3 && zone != "" then WithZone(e2, ep, zone) else e2
  }

  /** Record, membership and zone, as far as they were written; everything else as it was. */
  ghost predicate RegistrationWritten(
    was: Entry, e: Entry, size: string, registeredAt: string, jvm: string, arch: string, sha: Digest, ep: Endpoint,
    zone: string, landed: nat)
  {
    && e.meta == was.meta + (
         if landed == 0 then map[]
         else map["size" := size, "registered_at" := registeredAt, "jvm" := jvm, "arch" := arch, "sha256" := sha])
    && e.peers == was.peers + (if landed >= 2 then {ep} else {})
    && e.zones == (if landed >= 3 && zone != "" then was.zones[ep := zone] else was.zones)
    && e.lock == was.lock
  }

  lemma WhatIsRegistered(
    was: Entry, size: string, registeredAt: string, jvm: string, arch: string, sha: Digest, ep: Endpoint,
    zone: string, landed: nat)
    ensures RegistrationWritten(was, Registered(was, Fields(size, registeredAt, jvm, arch, sha), ep, zone, landed),
                                size, registeredAt, jvm, arch, sha, ep, zone, landed)
  {
  }

  // ---------------------------------------------------------------- the peer list

  /** SMEMBERS answers with the members once each, in any order. */
  ghost predicate Enumerates(reply: seq<Endpoint>, members: set<Endpoint>) {
    && (forall i, j :: 0 <= i < j < |reply| ==> reply[i] != reply[j])
    && (forall x :: x in reply <==> x in members)
  }

  function Without(s: seq<Endpoint>, self: Endpoint): seq<Endpoint> {
    if s == [] then []
    else Without(s[..|s| - 1], self) + (if s[|s| - 1] != self then [s[|s| - 1]] else [])
  }

  predicate SameZone(zones: map<Endpoint, string>, zone: string, ep: Endpoint) {
    (if ep in zones then zones[ep] else "") == zone
  }

  /** The endpoints in (or not in) the caller's zone, in their order. */
  function Class(s: seq<Endpoint>, zones: map<Endpoint, string>, zone: string, same: bool): seq<Endpoint> {
    if s == [] then []
    else
      var last := s[|s| - 1];
      Class(s[..|s| - 1], zones, zone, same) + (if SameZone(zones, zone, last) == same then [last] else [])
  }

  /** What ListPeersZoneAware makes of the SMEMBERS reply; `zones` is None when reading them failed. */
  function PeerOrder(
    reply: seq<Endpoint>, self: Endpoint, zone: string, zones: Option<map<Endpoint, string>>): seq<Endpoint>
  {
    var all := Without(reply, self);
    if zone == "" || zones.None? then all
    else Class(all, zones.value, zone, true) + Class(all, zones.value, zone, false)
  }

  /** The first `k` are all in the caller's zone and none of the others is. */
  predicate SplitsAt(s: seq<Endpoint>, zones: map<Endpoint, string>, zone: string, k: nat) {
    && k <= |s|
    && (forall x :: x in s[..k] ==> SameZone(zones, zone, x))
    && (forall x :: x in s[k..] ==> !SameZone(zones, zone, x))
  }

  ghost predicate SameZoneFirst(s: seq<Endpoint>, zones: map<Endpoint, string>, zone: string) {
    exists k: nat :: SplitsAt(s, zones, zone, k)
  }

  lemma {:induction false} WithoutKeepsTheRest(s: seq<Endpoint>, self: Endpoint)
    ensures multiset(Without(s, self)) == multiset(s)[self := 0]
  {
    if s != [] {
      var init, last := s[..|s| - 1], s[|s| - 1];
      assert s == init + [last];
      WithoutKeepsTheRest(init, self);
    }
  }

  lemma {:induction false} ClassesSplit(s: seq<Endpoint>, zones: map<Endpoint, string>, zone: string)
    ensures multiset(Class(s, zones, zone, true)) + multiset(Class(s, zones, zone, false)) == multiset(s)
  {
    if s != [] {
      var init, last := s[..|s| - 1], s[|s| - 1];
      assert s == init + [last];
      ClassesSplit(init, zones, zone);
    }
  }

  lemma {:induction false} ClassIsPure(s: seq<Endpoint>, zones: map<Endpoint, string>, zone: string, same: bool)
    ensures forall x :: x in Class(s, zones, zone, same) ==> SameZone(zones, zone, x) == same
  {
    if s != [] {
      ClassIsPure(s[..|s| - 1], zones, zone, same);
    }
  }

  lemma {:induction false} ClassOfPure(s: seq<Endpoint>, zones: map<Endpoint, string>, zone: string, same: bool)
    requires forall x :: x in s ==> SameZone(zones, zone, x) == same
    ensures Class(s, zones, zone, same) == s
    ensures Class(s, zones, zone, !same) == []
  {
    if s != [] {
      var init, last := s[..|s| - 1], s[|s| - 1];
      assert s == init + [last];
      assert last in s;
      ClassOfPure(init, zones, zone, same);
    }
  }

  lemma {:induction false} ClassConcat(
    a: seq<Endpoint>, b: seq<Endpoint>, zones: map<Endpoint, string>, zone: string, same: bool)
    ensures Class(a + b, zones, zone, same) == Class(a, zones, zone, same) + Class(b, zones, zone, same)
  {
    if b == [] {
      assert a + b == a;
    } else {
      var init, last := b[..|b| - 1], b[|b| - 1];
      assert (a + b)[..|a + b| - 1] == a + init;
      ClassConcat(a, init, zones, zone, same);
    }
  }

  lemma OthersAreTheSetMinusSelf(reply: seq<Endpoint>, members: set<Endpoint>, self: Endpoint)
    requires Enumerates(reply, members)
    ensures multiset(Without(reply, self)) == multiset(members - {self})
  {
    ReplyIsTheSet(reply, members);
    WithoutKeepsTheRest(reply, self);
    assert multiset(members)[self := 0] == multiset(members - {self});
  }

  lemma ClassesOfAPartition(
    all: seq<Endpoint>, zones: map<Endpoint, string>, zone: string, same: bool)
    ensures Class(Class(all, zones, zone, true) + Class(all, zones, zone, false), zones, zone, same)
         == Class(all, zones, zone, same)
  {
    var a, b := Class(all, zones, zone, true), Class(all, zones, zone, false);
    ClassIsPure(all, zones, zone, true);
    ClassIsPure(all, zones, zone, false);
    ClassConcat(a, b, zones, zone, same);
    ClassOfPure(a, zones, zone, true);
    ClassOfPure(b, zones, zone, false);
  }

  lemma OwnZoneComesFirst(all: seq<Endpoint>, zones: map<Endpoint, string>, zone: string)
    ensures SameZoneFirst(Class(all, zones, zone, true) + Class(all, zones, zone, false), zones, zone)
  {
    var a, b := Class(all, zones, zone, true), Class(all, zones, zone, false);
    ClassIsPure(all, zones, zone, true);
    ClassIsPure(all, zones, zone, false);
    assert (a + b)[..|a|] == a && (a + b)[|a|..] == b;
    assert SplitsAt(a + b, zones, zone, |a|);
  }

  /** A permutation of the other members, own zone first, with neither class of `all` reordered. */
  ghost predicate StablePartition(
    ps: seq<Endpoint>, all: seq<Endpoint>, others: set<Endpoint>, zones: map<Endpoint, string>, zone: string)
  {
    && multiset(ps) == multiset(others)
    && SameZoneFirst(ps, zones, zone)
    && (forall same: bool :: Class(ps, zones, zone, same) == Class(all, zones, zone, same))
  }

  /** The list a primer pulls from is a stable partition of the peer set without itself. */
  lemma {:induction false} ZoneOrderIsAStablePartition(
    reply: seq<Endpoint>, members: set<Endpoint>, self: Endpoint, zone: string, zones: map<Endpoint, string>)
    requires Enumerates(reply, members) && zone != ""
    ensures StablePartition(PeerOrder(reply, self, zone, Some(zones)), Without(reply, self), members - {self},
                            zones, zone)
  {
    var all := Without(reply, self);
    assert multiset(all) == multiset(members - {self}) by { OthersAreTheSetMinusSelf(reply, members, self); }
    assert multiset(PeerOrder(reply, self, zone, Some(zones))) == multiset(all) by { ClassesSplit(all, zones, zone); }
    OwnZoneComesFirst(all, zones, zone);
    ClassesOfAPartition(all, zones, zone, true);
    ClassesOfAPartition(all, zones, zone, false);
  }

  lemma {:induction false} ReplyIsTheSet(reply: seq<Endpoint>, members: set<Endpoint>)
    requires Enumerates(reply, members)
    ensures multiset(reply) == multiset(members)
  {
    if reply == [] {
      assert members == {};
    } else {
      var init, last := reply[..|reply| - 1], reply[|reply| - 1];
      assert reply == init + [last];
      ReplyIsTheSet(init, members - {last});
      assert members == (members - {last}) + {last};
    }
  }

  /** ... and it is the only such list. */
  lemma {:induction false} StablePartitionIsUnique(
    r: seq<Endpoint>, all: seq<Endpoint>, zones: map<Endpoint, string>, zone: string)
    requires SameZoneFirst(r, zones, zone)
    requires forall same: bool :: Class(r, zones, zone, same) == Class(all, zones, zone, same)
    ensures r == Class(all, zones, zone, true) + Class(all, zones, zone, false)
  {
    assert Class(r, zones, zone, true) == Class(all, zones, zone, true);
    assert Class(r, zones, zone, false) == Class(all, zones, zone, false);
    SortedSplits(r, zones, zone);
  }

  lemma SortedSplits(r: seq<Endpoint>, zones: map<Endpoint, string>, zone: string)
    requires SameZoneFirst(r, zones, zone)
    ensures r == Class(r, zones, zone, true) + Class(r, zones, zone, false)
  {
    var k: nat :| SplitsAt(r, zones, zone, k);
    assert r == r[..k] + r[k..];
    ClassOfPure(r[..k], zones, zone, true);
    ClassOfPure(r[k..], zones, zone, false);
    ClassConcat(r[..k], r[k..], zones, zone, true);
    ClassConcat(r[..k], r[k..], zones, zone, false);
  }

  /** With no zone of its own, or when the zones cannot be read, the caller gets the plain list. */
  lemma WithoutZonesTheListIsPlain(
    reply: seq<Endpoint>, members: set<Endpoint>, self: Endpoint, zone: string, zones: Option<map<Endpoint, string>>)
    requires Enumerates(reply, members) && (zone == "" || zones.None?)
    ensures PeerOrder(reply, self, zone, zones) == Without(reply, self)
    ensures multiset(Without(reply, self)) == multiset(members - {self})
  {
    OthersAreTheSetMinusSelf(reply, members, self);
  }

  /** Whatever the zones, the list names exactly the other members. */
  lemma PeerOrderMembers(
    reply: seq<Endpoint>, members: set<Endpoint>, self: Endpoint, zone: string, zones: Option<map<Endpoint, string>>)
    requires Enumerates(reply, members)
    ensures forall x :: x in PeerOrder(reply, self, zone, zones) <==> x in members && x != self
  {
    if zone == "" || zones.None? {
      WithoutZonesTheListIsPlain(reply, members, self, zone, zones);
    } else {
      ZoneOrderIsAStablePartition(reply, members, self, zone, zones.value);
    }
    var ps := PeerOrder(reply, self, zone, zones);
    forall x
      ensures x in ps <==> x in members && x != self
    {
      assert x in ps <==> x in multiset(ps);
      assert x in multiset(members - {self}) <==> x in members - {self};
    }
  }

  /** The lists a primer may get: the others in any order, its own zone first when the zones could be read. */
  ghost predicate PeerList(
    ps: seq<Endpoint>, members: set<Endpoint>, self: Endpoint, zone: string, zones: Option<map<Endpoint, string>>)
  {
    && Enumerates(ps, members - {self})
    && (zone != "" && zones.Some? ==> SameZoneFirst(ps, zones.value, zone))
  }

  lemma {:induction false} DistinctAsACollection(s: seq<Endpoint>, members: set<Endpoint>)
    requires multiset(s) == multiset(members)
    ensures Enumerates(s, members)
  {
    forall x
      ensures x in s <==> x in members
    {
      assert x in s <==> x in multiset(s);
    }
    forall i, j | 0 <= i < j < |s|
      ensures s[i] != s[j]
    {
      assert s == s[..j] + s[j..] && s[i] in s[..j] && s[j] in s[j..];
      assert multiset(s) == multiset(s[..j]) + multiset(s[j..]);
      assert multiset(s)[s[j]] <= 1;
    }
  }

  lemma PeerOrderIsAPeerList(
    reply: seq<Endpoint>, members: set<Endpoint>, self: Endpoint, zone: string, zones: Option<map<Endpoint, string>>)
    requires Enumerates(reply, members)
    ensures PeerList(PeerOrder(reply, self, zone, zones), members, self, zone, zones)
  {
    if zone == "" || zones.None? {
      WithoutZonesTheListIsPlain(reply, members, self, zone, zones);
    } else {
      ZoneOrderIsAStablePartition(reply, members, self, zone, zones.value);
    }
    DistinctAsACollection(PeerOrder(reply, self, zone, zones), members - {self});
  }

  lemma {:induction false} NothingToFilter(s: seq<Endpoint>, self: Endpoint)
    requires self !in s
    ensures Without(s, self) == s
  {
    if s != [] {
      var init, last := s[..|s| - 1], s[|s| - 1];
      assert s == init + [last];
      NothingToFilter(init, self);
    }
  }

  /** ... and each of them, for some reply. */
  lemma EveryPeerListIsAnOrder(
    ps: seq<Endpoint>, members: set<Endpoint>, self: Endpoint, zone: string, zones: Option<map<Endpoint, string>>)
    returns (reply: seq<Endpoint>)
    requires PeerList(ps, members, self, zone, zones)
    ensures Enumerates(reply, members) && PeerOrder(reply, self, zone, zones) == ps
  {
    reply := if self in members then ps + [self] else ps;
    WithSelfBack(ps, members, self);
    hide Class, Without, Enumerates;
    if zone != "" && zones.Some? {
      SortedSplits(ps, zones.value, zone);
    }
  }

  lemma WithSelfBack(ps: seq<Endpoint>, members: set<Endpoint>, self: Endpoint)
    requires Enumerates(ps, members - {self})
    ensures var reply := if self in members then ps + [self] else ps;
            Enumerates(reply, members) && Without(reply, self) == ps
  {
    NothingToFilter(ps, self);
    assert (ps + [self])[..|ps|] == ps;
  }

  // ---------------------------------------------------------------- the same on the zone map itself

  /** Endpoints whose recorded zone is the caller's come before all others. */
  lemma SameZoneFirstMeans(l: seq<Endpoint>, zones: map<Endpoint, string>, zone: string)
    requires zone != ""
    ensures SameZoneFirst(l, zones, zone) <==>
              forall i, j ::
                && 0 <= i < |l| && l[i] in zones && zones[l[i]] == zone
                && 0 <= j < |l| && !(l[j] in zones && zones[l[j]] == zone)
                ==> i < j
  {
    if SameZoneFirst(l, zones, zone) {
      var k: nat :| SplitsAt(l, zones, zone, k);
      assert forall i :: 0 <= i < k ==> l[i] in l[..k];
      assert forall i :: k <= i < |l| ==> l[i] in l[k..];
    } else {
      var k := FirstStranger(l, zones, zone);
      assert !SplitsAt(l, zones, zone, k);
      var x :| x in l[k..] && SameZone(zones, zone, x);
      var i :| k <= i < |l| && l[i] == x;
      assert k < i;
    }
  }

  lemma {:induction false} FirstStranger(l: seq<Endpoint>, zones: map<Endpoint, string>, zone: string) returns (k: nat)
    ensures k <= |l| && forall x :: x in l[..k] ==> SameZone(zones, zone, x)
    ensures k < |l| ==> !SameZone(zones, zone, l[k])
  {
    k := 0;
    while k < |l| && SameZone(zones, zone, l[k])
      invariant k <= |l| && forall x :: x in l[..k] ==> SameZone(zones, zone, x)
    {
      k := k + 1;
    }
  }

  /** `x` stands somewhere before `y`. */
  ghost predicate InOrder(s: seq<Endpoint>, x: Endpoint, y: Endpoint) {
    exists a, b :: 0 <= a < b < |s| && s[a] == x && s[b] == y
  }

  lemma {:induction false} ClassKeepsOrder(
    s: seq<Endpoint>, zones: map<Endpoint, string>, zone: string, same: bool, i: nat, j: nat)
    requires i < j < |Class(s, zones, zone, same)|
    ensures InOrder(s, Class(s, zones, zone, same)[i], Class(s, zones, zone, same)[j])
  {
    var n := |s| - 1;
    var init, kept := s[..n], Class(s, zones, zone, same);
    var before := Class(init, zones, zone, same);
    if j < |before| {
      ClassKeepsOrder(init, zones, zone, same, i, j);
      var a, b :| 0 <= a < b < n && init[a] == kept[i] && init[b] == kept[j];
      assert s[a] == kept[i] && s[b] == kept[j];
    } else {
      ClassIsPart(init, zones, zone, same);
      assert before[i] in before;
      var a :| 0 <= a < n && init[a] == before[i];
      assert s[a] == kept[i] && s[n] == kept[j];
    }
  }

  lemma {:induction false} ClassIsPart(s: seq<Endpoint>, zones: map<Endpoint, string>, zone: string, same: bool)
    ensures forall x :: x in Class(s, zones, zone, same) ==> x in s
  {
    if s != [] {
      ClassIsPart(s[..|s| - 1], zones, zone, same);
    }
  }

  lemma {:induction false} WithoutKeepsOrder(s: seq<Endpoint>, self: Endpoint, x: Endpoint, y: Endpoint)
    requires InOrder(Without(s, self), x, y)
    ensures InOrder(s, x, y)
  {
    var n := |s| - 1;
    var init, before := s[..n], Without(s[..n], self);
    if InOrder(before, x, y) {
      WithoutKeepsOrder(init, self, x, y);
      var a, b :| 0 <= a < b < n && init[a] == x && init[b] == y;
      assert s[a] == x && s[b] == y;
    } else {
      assert x in before && s[n] == y;
      WithoutKeepsTheRest(init, self);
      assert x in multiset(before);
      assert x in multiset(init);
      var a :| 0 <= a < n && init[a] == x;
      assert s[a] == x;
    }
  }

  /** What the zone map says of the list that is made of a reply: the caller's zone before everything else, and two
    * endpoints that are both in it, or both not, in the order of the reply. */
  lemma TheListFollowsTheZoneMap(
    reply: seq<Endpoint>, members: set<Endpoint>, self: Endpoint, zone: string, zones: map<Endpoint, string>)
    requires Enumerates(reply, members) && zone != ""
    ensures var l := PeerOrder(reply, self, zone, Some(zones));
            forall i, j ::
              && 0 <= i < |l| && l[i] in zones && zones[l[i]] == zone
              && 0 <= j < |l| && !(l[j] in zones && zones[l[j]] == zone)
              ==> i < j
    ensures var l := PeerOrder(reply, self, zone, Some(zones));
            forall i, j ::
              && 0 <= i < j < |l|
              && ((l[i] in zones && zones[l[i]] == zone) <==> (l[j] in zones && zones[l[j]] == zone))
              ==> InOrder(reply, l[i], l[j])
  {
    var all := Without(reply, self);
    var a, b := Class(all, zones, zone, true), Class(all, zones, zone, false);
    var l := PeerOrder(reply, self, zone, Some(zones));
    OwnZoneComesFirst(all, zones, zone);
    SameZoneFirstMeans(l, zones, zone);
    ClassIsPure(all, zones, zone, true);
    ClassIsPure(all, zones, zone, false);
    forall i, j |
      && 0 <= i < j < |l|
      && ((l[i] in zones && zones[l[i]] == zone) <==> (l[j] in zones && zones[l[j]] == zone))
      ensures InOrder(reply, l[i], l[j])
    {
      if j < |a| {
        assert l[i] == a[i] && l[j] == a[j];
        ClassKeepsOrder(all, zones, zone, true, i, j);
      } else {
        assert l[j] == b[j - |a|] && l[j] in b;
        assert forall x :: x in a ==> x in zones && zones[x] == zone;
        assert l[i] == b[i - |a|];
        ClassKeepsOrder(all, zones, zone, false, i - |a|, j - |a|);
      }
      WithoutKeepsOrder(reply, self, l[i], l[j]);
    }
  }

  /** A registration with a zone counts for every later caller: the endpoint is on the list, before all peers of other
    * zones when the caller is in its zone, and behind all of the caller's zone when not. */
  lemma ARegisteredZoneDecidesThePlace(
    e: Entry, fields: map<string, string>, ep: Endpoint, epZone: string, l: seq<Endpoint>, self: Endpoint, zone: string)
    requires epZone != "" && zone != "" && ep != self
    requires var after := Registered(e, fields, ep, epZone, 3);
             PeerList(l, after.peers, self, zone, Some(after.zones))
    ensures var zones := Registered(e, fields, ep, epZone, 3).zones;
            exists i ::
              && 0 <= i < |l| && l[i] == ep
              && (zone == epZone ==>
                    forall j :: 0 <= j < |l| && !(l[j] in zones && zones[l[j]] == zone) ==> i < j)
              && (zone != epZone ==>
                    forall j :: 0 <= j < |l| && l[j] in zones && zones[l[j]] == zone ==> j < i)
  {
    var after := Registered(e, fields, ep, epZone, 3);
    SameZoneFirstMeans(l, after.zones, zone);
    assert ep in l;
    var i :| 0 <= i < |l| && l[i] == ep;
    assert after.zones[ep] == epZone;
  }

  /** The in-place filter of ListPeers: `out` shares the reply's backing array, so every kept endpoint is
    * written at or before the place it is read from. */
  method KeepOthers(members: array<Endpoint>, self: Endpoint) returns (n: nat)
    modifies members
    ensures n <= members.Length
    ensures members[..n] == Without(old(members[..]), self)
    ensures members[n..] == old(members[..])[n..]
  {
    ghost var was := members[..];
    n := 0;
    var i := 0;
    while i < members.Length
      invariant 0 <= n <= i <= members.Length
      invariant members[..n] == Without(was[..i], self)
      invariant forall k :: n <= k < members.Length ==> members[k] == was[k]
    {
      assert was[..i + 1][..i] == was[..i];
      if members[i] != self {
        ghost var kept := members[..n];
        members[n] := members[i];
        n := n + 1;
        assert members[..n] == kept + [was[i]];
      }
      i := i + 1;
    }
    assert was[..members.Length] == was;
  }

  // ---------------------------------------------------------------- the store

  /** What becomes of a request: executed and answered; executed with the answer lost; never executed. */
  datatype Link = Answered | ReplyLost | Undelivered

  datatype Volatile = Volatile(text: string, expiry: int)

  /** Archive keys are hex strings, so no two archives share a record. */
  type Key = s: string | ':' !in s

  function MetaName(key: Key): string { "archive:" + key }
  function PeersName(key: Key): string { "archive:" + key + ":peers" }
  function ZonesName(key: Key): string { "archive:" + key + ":peer-zone" }
  function LockName(key: Key): string { "archive:" + key + ":build_lock" }

  lemma NamesAreDistinct(a: Key, b: Key)
    ensures MetaName(a) != ZonesName(b)
    ensures a != b ==> MetaName(a) != MetaName(b) && ZonesName(a) != ZonesName(b)
    ensures a != b ==> PeersName(a) != PeersName(b) && LockName(a) != LockName(b)
  {
    assert MetaName(a)[8..] == a && MetaName(b)[8..] == b;
    assert ZonesName(b)[8..] == b + ":peer-zone";
    assert (b + ":peer-zone")[|b|] == ':';
    if ZonesName(a) == ZonesName(b) { SameFrame("archive:", a, b, ":peer-zone"); }
    if PeersName(a) == PeersName(b) { SameFrame("archive:", a, b, ":peers"); }
    if LockName(a) == LockName(b) { SameFrame("archive:", a, b, ":build_lock"); }
  }

  class Store {
    var strings: map<string, Volatile>
    var hashes: map<string, map<string, string>>
    var sets: map<string, set<string>>
    var clock: int

    constructor ()
      ensures forall key :: EntryOf(key) == Entry(map[], {}, map[], Lease.Free)
    {
      strings, hashes, sets, clock := map[], map[], map[], 0;
    }

    function HashAt(name: string): map<string, string>
      reads `hashes
    {
      if name in hashes then hashes[name] else map[]
    }

    function SetAt(name: string): set<string>
      reads `sets
    {
      if name in sets then sets[name] else {}
    }

    function LockAt(name: string): Lease.Lock
      reads `strings
    {
      if name in strings then Lease.Held(strings[name].text, strings[name].expiry) else Lease.Free
    }

    /** There is no lock, or its time is over. */
    predicate Lapsed(key: Key)
      reads `strings, `clock
      ensures !Lapsed(key) ==> LockAt(LockName(key)).Held?
    {
      LockName(key) in strings ==> strings[LockName(key)].expiry <= clock
    }

    /** All records of one archive. */
    function EntryOf(key: Key): Entry
      reads `strings, `hashes, `sets
    {
      Entry(HashAt(MetaName(key)), SetAt(PeersName(key)), HashAt(ZonesName(key)), LockAt(LockName(key)))
    }

    /** A lapsed string is dropped when it is next accessed. */
    method Expire(name: string)
      modifies this`strings
      ensures LockAt(name) == Lease.Seen(old(LockAt(name)), clock)
      ensures forall n :: n != name ==> LockAt(n) == old(LockAt(n))
    {
      if name in strings && strings[name].expiry <= clock {
        strings := strings - {name};
      }
    }

    /** HSET merges fields. */
    method HSet(name: string, fields: map<string, string>)
      modifies this`hashes
      ensures HashAt(name) == old(HashAt(name)) + fields
      ensures forall n :: n != name ==> HashAt(n) == old(HashAt(n))
    {
      hashes := hashes[name := HashAt(name) + fields];
    }

    method SAdd(name: string, member: string)
      modifies this`sets
      ensures SetAt(name) == old(SetAt(name)) + {member}
      ensures forall n :: n != name ==> SetAt(n) == old(SetAt(n))
    {
      sets := sets[name := SetAt(name) + {member}];
    }

    /** SET NX PX. */
    method TryAcquireBuildLock(key: Key, holder: Endpoint, ttl: int, link: Link) returns (r: Result<bool>)
      modifies this
      ensures clock == old(clock)
      ensures EntryOf(key) ==
              if link.Undelivered? then old(EntryOf(key))
              else Locked(old(EntryOf(key)), clock, ttl, Lease.Acquire(holder))
      ensures forall k: Key :: k != key ==> EntryOf(k) == old(EntryOf(k))
      ensures r == if link.Answered? then Ok(Lease.Succeeds(old(EntryOf(key)).lock, clock, Lease.Acquire(holder)))
                   else Err
      // taken if and only if there is none or it has lapsed
      ensures var was, free := old(LockAt(LockName(key))), old(Lapsed(key));
              && (r == Ok(true) <==> link.Answered? && free)
              && (r == Ok(false) <==> link.Answered? && !free)
              && EntryOf(key) == old(EntryOf(key)).(
                   lock := if free && !link.Undelivered? then Lease.Held(holder, clock + ttl) else was)
    {
      r := Err;
      if !link.Undelivered? {
        Expire(LockName(key));
        var free := LockName(key) !in strings;
        if free {
          strings := strings[LockName(key) := Volatile(holder, clock + ttl)];
        }
        if link.Answered? {
          r := Ok(free);
        }
      }
      forall k: Key | k != key
        ensures EntryOf(k) == old(EntryOf(k))
      {
        NamesAreDistinct(k, key);
      }
    }

    /** GET == holder then PEXPIRE, in one script. */
    method RenewBuildLock(key: Key, holder: Endpoint, ttl: int, link: Link) returns (r: Result<bool>)
      modifies this
      ensures clock == old(clock)
      ensures EntryOf(key) ==
              if link.Undelivered? then old(EntryOf(key))
              else Locked(old(EntryOf(key)), clock, ttl, Lease.Renew(holder))
      ensures forall k: Key :: k != key ==> EntryOf(k) == old(EntryOf(k))
      ensures r == if link.Answered? then Ok(Lease.Succeeds(old(EntryOf(key)).lock, clock, Lease.Renew(holder)))
                   else Err
      // moved if and only if it is the caller's and has not lapsed
      ensures var was, lapsed := old(LockAt(LockName(key))), old(Lapsed(key));
              var mine := !lapsed && was.holder == holder;
              && (r == Ok(true) <==> link.Answered? && mine)
              && (r == Ok(false) <==> link.Answered? && !mine)
              && EntryOf(key) == old(EntryOf(key)).(
                   lock := if link.Undelivered? then was
                           else if lapsed then Lease.Free
                           else if mine then Lease.Held(holder, clock + ttl)
                           else was)
    {
      r := Err;
      if !link.Undelivered? {
        Expire(LockName(key));
        var mine := LockName(key) in strings && strings[LockName(key)].text == holder;
        if mine {
          strings := strings[LockName(key) := Volatile(holder, clock + ttl)];
        }
        if link.Answered? {
          r := Ok(mine);
        }
      }
      forall k: Key | k != key
        ensures EntryOf(k) == old(EntryOf(k))
      {
        NamesAreDistinct(k, key);
      }
    }

    /** GET == holder then DEL, in one script; only a transport failure is an error. */
    method ReleaseBuildLock(key: Key, holder: Endpoint, link: Link) returns (r: Result<()>)
      modifies this
      ensures clock == old(clock)
      ensures EntryOf(key) ==
              if link.Undelivered? then old(EntryOf(key))
              else Locked(old(EntryOf(key)), clock, 0, Lease.Release(holder))
      ensures forall k: Key :: k != key ==> EntryOf(k) == old(EntryOf(k))
      ensures r.Ok? <==> link.Answered?
      // gone if it is the caller's or has lapsed
      ensures var was, lapsed := old(LockAt(LockName(key))), old(Lapsed(key));
              EntryOf(key) == old(EntryOf(key)).(
                lock := if !link.Undelivered? && (lapsed || was.holder == holder) then Lease.Free else was)
    {
      r := if link.Answered? then Ok(()) else Err;
      if !link.Undelivered? {
        Expire(LockName(key));
        if LockName(key) in strings && strings[LockName(key)].text == holder {
          strings := strings - {LockName(key)};
        }
      }
      forall k: Key | k != key
        ensures EntryOf(k) == old(EntryOf(k))
      {
        NamesAreDistinct(k, key);
      }
    }

    method WriteRecord(key: Key, fields: map<string, string>)
      modifies this`hashes
      ensures EntryOf(key) == WithMeta(old(EntryOf(key)), fields)
      ensures forall k: Key :: k != key ==> EntryOf(k) == old(EntryOf(k))
    {
      HSet(MetaName(key), fields);
      NamesAreDistinct(key, key);
      forall k: Key | k != key
        ensures EntryOf(k) == old(EntryOf(k))
      {
        NamesAreDistinct(k, key);
        NamesAreDistinct(key, k);
      }
    }

    method WriteMember(key: Key, endpoint: Endpoint)
      modifies this`sets
      ensures EntryOf(key) == WithPeer(old(EntryOf(key)), endpoint)
      ensures forall k: Key :: k != key ==> EntryOf(k) == old(EntryOf(k))
    {
      SAdd(PeersName(key), endpoint);
      forall k: Key | k != key
        ensures EntryOf(k) == old(EntryOf(k))
      {
        NamesAreDistinct(k, key);
      }
    }

    method WriteZone(key: Key, endpoint: Endpoint, zone: string)
      modifies this`hashes
      ensures EntryOf(key) == WithZone(old(EntryOf(key)), endpoint, zone)
      ensures forall k: Key :: k != key ==> EntryOf(k) == old(EntryOf(k))
    {
      HSet(ZonesName(key), map[endpoint := zone]);
      NamesAreDistinct(key, key);
      forall k: Key | k != key
        ensures EntryOf(k) == old(EntryOf(k))
      {
        NamesAreDistinct(k, key);
      }
    }

    /** HSET the record, SADD the endpoint, HSET its zone: one pipeline, not one transaction, so a broken
      * connection may leave any prefix of it executed. */
    method Register(
      key: Key, endpoint: Endpoint, size: string, registeredAt: string, jvm: string, arch: string,
      sha: Digest, zone: string, landed: nat, link: Link)
      returns (r: Result<()>)
      modifies this
      ensures clock == old(clock)
      ensures EntryOf(key) ==
              Registered(old(EntryOf(key)), Fields(size, registeredAt, jvm, arch, sha), endpoint, zone,
                         if link.Answered? then 3 else landed)
      ensures RegistrationWritten(old(EntryOf(key)), EntryOf(key), size, registeredAt, jvm, arch, sha, endpoint, zone,
                                  if link.Answered? then 3 else landed)
      ensures forall k: Key :: k != key ==> EntryOf(k) == old(EntryOf(k))
      ensures r.Ok? <==> link.Answered?
    {
      hide RegistrationWritten;
      r := if link.Answered? then Ok(()) else Err;
      var count := if link.Answered? then 3 else landed;
      if count >= 1 {
        WriteRecord(
          key, map["size" := size, "registered_at" := registeredAt, "jvm" := jvm, "arch" := arch, "sha256" := sha]);
      }
      if count >= 2 {
        WriteMember(key, endpoint);
      }
      if count >= 3 && zone != "" {
        WriteZone(key, endpoint, zone);
      }
      WhatIsRegistered(old(EntryOf(key)), size, registeredAt, jvm, arch, sha, endpoint, zone, count);
    }

    /** SREM. */
    method Unregister(key: Key, endpoint: Endpoint, link: Link) returns (r: Result<()>)
      modifies this
      ensures clock == old(clock)
      ensures EntryOf(key) ==
              if link.Undelivered? then old(EntryOf(key)) else WithoutPeer(old(EntryOf(key)), endpoint)
      ensures var was := old(EntryOf(key));
              && EntryOf(key).peers == was.peers - (if link.Undelivered? then {} else {endpoint})
              && EntryOf(key).meta == was.meta && EntryOf(key).zones == was.zones && EntryOf(key).lock == was.lock
      ensures forall k: Key :: k != key ==> EntryOf(k) == old(EntryOf(k))
      ensures r.Ok? <==> link.Answered?
    {
      r := if link.Answered? then Ok(()) else Err;
      if !link.Undelivered? {
        sets := sets[PeersName(key) := SetAt(PeersName(key)) - {endpoint}];
      }
      forall k: Key | k != key
        ensures EntryOf(k) == old(EntryOf(k))
      {
        NamesAreDistinct(k, key);
      }
    }

    /** HGET; a missing field is "" and not an error. */
    method ArchiveSHA256(key: Key, link: Link) returns (r: Result<Digest>)
      ensures r == if link.Answered? then Ok(Sha(EntryOf(key))) else Err
      ensures r.Ok? && "sha256" in EntryOf(key).meta ==> r.value == EntryOf(key).meta["sha256"]
      ensures r.Ok? && "sha256" !in EntryOf(key).meta ==> r.value == ""
    {
      if !link.Answered? {
        return Err;
      }
      var fields := HashAt(MetaName(key));
      if "sha256" in fields {
        return Ok(fields["sha256"]);
      }
      return Ok("");
    }

    /** SMEMBERS, in an order of the server's choice. */
    method Members(name: string) returns (members: array<Endpoint>)
      ensures fresh(members)
      ensures Enumerates(members[..], SetAt(name))
    {
      var left := SetAt(name);
      var reply: seq<Endpoint> := [];
      while left != {}
        invariant left <= SetAt(name)
        invariant Enumerates(reply, SetAt(name) - left)
        decreases left
      {
        var x :| x in left;
        assert SetAt(name) - (left - {x}) == (SetAt(name) - left) + {x};
        reply := reply + [x];
        left := left - {x};
      }
      assert SetAt(name) - left == SetAt(name);
      members := new Endpoint[|reply|](i requires 0 <= i < |reply| => reply[i]);
      assert members[..] == reply;
    }

    method ListPeers(key: Key, self: Endpoint, link: Link) returns (r: Result<seq<Endpoint>>)
      ensures r.Ok? <==> link.Answered?
      ensures r.Ok? ==> exists reply ::
                Enumerates(reply, EntryOf(key).peers) && r.value == Without(reply, self)
    {
      if !link.Answered? {
        return Err;
      }
      var members := Members(PeersName(key));
      ghost var reply := members[..];
      var n := KeepOthers(members, self);
      r := Ok(members[..n]);
    }

    method ListPeersZoneAware(key: Key, self: Endpoint, zone: string, link: Link, zonesLink: Link)
      returns (r: Result<seq<Endpoint>>)
      ensures r.Ok? <==> link.Answered?
      ensures r.Ok? ==> exists reply ::
                && Enumerates(reply, EntryOf(key).peers)
                && r.value == PeerOrder(reply, self, zone,
                                        if zonesLink.Answered? then Some(EntryOf(key).zones) else None)
      ensures r.Ok? && zone != "" && zonesLink.Answered? ==>
                var l, zones := r.value, EntryOf(key).zones;
                forall i, j ::
                  && 0 <= i < |l| && l[i] in zones && zones[l[i]] == zone
                  && 0 <= j < |l| && !(l[j] in zones && zones[l[j]] == zone)
                  ==> i < j
    {
      r := ListPeers(key, self, link);
      if r.Err? || zone == "" || !zonesLink.Answered? {
        return;
      }
      var all, zones := r.value, HashAt(ZonesName(key));
      var same, other: seq<Endpoint> := [], [];
      for i := 0 to |all|
        invariant same == Class(all[..i], zones, zone, true)
        invariant other == Class(all[..i], zones, zone, false)
      {
        assert all[..i + 1][..i] == all[..i];
        if (if all[i] in zones then zones[all[i]] else "") == zone {
          same := same + [all[i]];
        } else {
          other := other + [all[i]];
        }
      }
      assert all[..|all|] == all;
      r := Ok(same + other);
      OwnZoneComesFirst(all, zones, zone);
      SameZoneFirstMeans(r.value, zones, zone);
    }
  }
}
