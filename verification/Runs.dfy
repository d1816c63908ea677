/** Particular runs: the protocol does its job when nothing fails, and each fault excluded from the
  * safety theorems really breaks them.
  */
module Runs {
  import opened Prelude
  import opened Cluster
  import Lease
  import Directory
  import Peer
  import Lineage
  import Exclusion

  lemma Extend(c: Config, s: State, ls: seq<Label>, t: State, f: set<Fault>, l: Label)
    returns (ls': seq<Label>, t': State, f': set<Fault>)
    requires Path(c, s, ls, t, f) && Enabled(t, l)
    ensures Path(c, s, ls', t', f') && t' == Apply(c, t, l) && f' == f + Faults(t, l)
  {
    ls', t', f' := ls + [l], Apply(c, t, l), f + Faults(t, l);
    assert [l][1..] == [] && [l][0] == l;
    assert Exec(c, t, [l]) == Exec(c, t', []);
    assert RunFaults(c, t, [l]) == Faults(t, l) + RunFaults(c, t', []);
    assert Path(c, t, [l], t', Faults(t, l));
    PathConcat(c, s, ls, t, f, [l], t', Faults(t, l));
  }

  lemma NoStep(c: Config, s: State)
    ensures Path(c, s, [], s, {})
  {
  }

  /** One more step of primer `l.i`, which takes it to `n`. */
  lemma Own(c: Config, s: State, ls: seq<Label>, t: State, f: set<Fault>, l: Label, n: Node)
    returns (ls': seq<Label>, t': State, f': set<Fault>)
    requires Path(c, s, ls, t, f) && Local(l) && !l.Shutdown? && Enabled(t, l) && Moved(c, t, l) == n
    ensures Path(c, s, ls', t', f') && f' == f + Faults(t, l)
    ensures t' == t.(nodes := t.nodes[l.i := n], sent := t.sent + Requests(c, t, l), born := t.born + Births(l))
  {
    ls', t', f' := Extend(c, s, ls, t, f, l);
  }

  /** The store executes `m`, the reply is heard, and the sender is then `n`. */
  lemma Heard(c: Config, s: State, ls: seq<Label>, t: State, f: set<Fault>, m: Msg, n: Node)
    returns (ls': seq<Label>, t': State, f': set<Fault>)
    requires Path(c, s, ls, t, f) && Enabled(t, Land(m, true)) && Answered(c, t, m, true) == n
    ensures Path(c, s, ls', t', f') && f' == f + Faults(t, Land(m, true))
    ensures t' == Executed(c, t, m, true) && t'.nodes == t.nodes[m.sender := n]
  {
    ls', t', f' := Extend(c, s, ls, t, f, Land(m, true));
  }

  /** A good transfer of `bytes`, or one whose file cannot be removed. */
  function Whole(bytes: Bytes, removable: bool): Peer.Transfer {
    Peer.Body(bytes, true, true, true, removable)
  }

  /** Primer `i` is new; the directory says that `j` has an archive with digest `sha`. */
  function Newcomer(i: Endpoint, j: Endpoint, sha: Digest, born: set<Bytes>): State {
    State(0, Directory.Entry(if sha == "" then map[] else map["sha256" := sha], {j}, map[], Lease.Free),
          map[i := Node(Down, 0, None, "", 0)], {}, born, {})
  }

  lemma NewcomerIsInitial(c: Config, i: Endpoint, j: Endpoint, x: Bytes)
    requires Lineage.GoodHash(c) && 0 <= c.ttl
    ensures Lineage.Init(c, Newcomer(i, j, c.H(x), {x}))
    ensures Directory.Enumerates([j], {j})
  {
    assert c.H(x) != "";
    assert x in {x};
  }

  /** The digest of pulled bytes `y` ends up in the directory although no such file was ever built. */
  ghost predicate ForeignDigest(c: Config, t: State, y: Bytes) {
    Directory.Sha(t.entry) == c.H(y) && !Lineage.Traced(c, t.born, c.H(y))
  }

  lemma OnlyPeer(i: Endpoint, j: Endpoint)
    requires i != j
    ensures Directory.Without([j], i) == [j] && Directory.Enumerates([j], {j}) && [j][1..] == []
  {
    assert [j] == [] + [j];
  }

  /** A start without a usable file, up to the peer list. */
  lemma ReachListed(c: Config, s: State, i: Endpoint, n: Node, reply: seq<Endpoint>)
    returns (ls: seq<Label>, t: State)
    requires i in s.nodes && s.nodes[i] == n && n.pc.Down? && !Peer.Usable(n.file)
    requires Directory.Enumerates(reply, s.entry.peers)
    ensures Path(c, s, ls, t, {})
    ensures t == s.(nodes := s.nodes[i := n.(pc := Listed(false, Directory.Without(reply, i)), life := n.life + 1)])
  {
    NoStep(c, s);
    hide Path;
    var f: set<Fault>;
    var m := n.(life := n.life + 1);
    ls, t, f := [], s, {};
    ls, t, f := Own(c, s, ls, t, f, Boot(i), m.(pc := Starting));
    ls, t, f := Own(c, s, ls, t, f, CheckLocal(i), m.(pc := Listing(false)));
    ls, t, f := Own(c, s, ls, t, f, List(i, reply, None), m.(pc := Listed(false, Directory.Without(reply, i))));
  }

  /** One look at the next peer: `read` gave the digest `sha`, `tr` is what the peer serves. */
  lemma StartPull(
    c: Config, s: State, ls: seq<Label>, t: State, f: set<Fault>, i: Endpoint, n: Node, read: Label,
    sha: Digest, tr: Peer.Transfer)
    returns (ls': seq<Label>, t': State, f': set<Fault>)
    requires Path(c, s, ls, t, f) && i in t.nodes && t.nodes[i] == n && n.pc.Listed? && n.pc.peers != []
    requires tr.Body?
    requires (read == ReadShaError(i) && sha == "") || (read == ReadSha(i) && sha == Directory.Sha(t.entry))
    ensures Path(c, s, ls', t', f')
    ensures f' == f + (if read.ReadSha? then {} else {ShaUnread}) + (if tr.removable then {} else {NotRemoved})
    ensures t' == t.(nodes := t.nodes[i := n.(pc := Transferring(n.pc.wait, n.pc.peers[1..], sha, tr),
                                              file := Some(tr.bytes))])
  {
    hide Path;
    var wait, peers := n.pc.wait, n.pc.peers;
    ls', t', f' := Own(c, s, ls, t, f, read, n.(pc := Pulling(wait, peers, sha)));
    ls', t', f' := Own(c, s, ls', t', f', BeginPull(i, tr),
                       n.(pc := Transferring(wait, peers[1..], sha, tr), file := Some(tr.bytes)));
  }

  /** ... and on to the middle of a transfer from the first peer on the list. */
  lemma ReachTransfer(
    c: Config, s: State, i: Endpoint, n: Node, reply: seq<Endpoint>, read: Label, sha: Digest, tr: Peer.Transfer)
    returns (ls: seq<Label>, t: State)
    requires i in s.nodes && s.nodes[i] == n && n.pc.Down? && !Peer.Usable(n.file)
    requires Directory.Enumerates(reply, s.entry.peers) && Directory.Without(reply, i) != [] && tr.Body?
    requires (read == ReadShaError(i) && sha == "") || (read == ReadSha(i) && sha == Directory.Sha(s.entry))
    ensures Path(c, s, ls, t, (if read.ReadSha? then {} else {ShaUnread}) + (if tr.removable then {} else {NotRemoved}))
    ensures t == s.(nodes := s.nodes[i := n.(pc := Transferring(false, Directory.Without(reply, i)[1..], sha, tr),
                                              life := n.life + 1, file := Some(tr.bytes))])
  {
    ls, t := ReachListed(c, s, i, n, reply);
    hide Path;
    var f: set<Fault>;
    ls, t, f := StartPull(c, s, ls, t, {}, i, t.nodes[i], read, sha, tr);
  }

  /** From a file about to be hashed to its digest in the directory. */
  lemma RecordFile(c: Config, s: State, ls: seq<Label>, t: State, f: set<Fault>, i: Endpoint, y: Bytes)
    returns (ls': seq<Label>, t': State)
    requires Path(c, s, ls, t, f)
    requires i in t.nodes && t.nodes[i].pc == Hashing && t.nodes[i].file == Some(y)
    ensures Path(c, s, ls', t', f)
    ensures Directory.Sha(t'.entry) == c.H(y) && t'.born == t.born
  {
    hide Path;
    var n, f' := t.nodes[i].(pc := Registering(c.H(y))), f;
    ls', t', f' := Own(c, s, ls, t, f', HashFile(i), n);
    ls', t', f' := Heard(c, s, ls', t', f', RecordMsg(i, n.life, c.H(y)), n);
  }

  /** Pulled without an expected digest, any bytes become the archive. */
  lemma PullUnchecked(c: Config, s: State, i: Endpoint, n: Node, reply: seq<Endpoint>, y: Bytes, read: Label)
    returns (ls: seq<Label>, t: State)
    requires i in s.nodes && s.nodes[i] == n && n.pc.Down? && !Peer.Usable(n.file)
    requires Directory.Enumerates(reply, s.entry.peers) && Directory.Without(reply, i) != []
    requires read == ReadShaError(i) || (read == ReadSha(i) && Directory.Sha(s.entry) == "")
    ensures Path(c, s, ls, t, if read.ReadSha? then {} else {ShaUnread})
    ensures Directory.Sha(t.entry) == c.H(y) && t.born == s.born
  {
    ls, t := ReachTransfer(c, s, i, n, reply, read, "", Whole(y, true));
    hide Path;
    var f := if read.ReadSha? then {} else {ShaUnread};
    ls, t, f := Own(c, s, ls, t, f, EndPull(i), t.nodes[i].(pc := Hashing));
    ls, t := RecordFile(c, s, ls, t, f, i, y);
  }

  /** If the stored digest cannot be read, the pull goes unchecked and any bytes become the archive. */
  lemma AnUnreadDigestBreaksLineage(c: Config, i: Endpoint, j: Endpoint, x: Bytes, y: Bytes)
    returns (s: State, ls: seq<Label>, t: State)
    requires Lineage.GoodHash(c) && 0 <= c.ttl && i != j && c.H(x) != c.H(y)
    ensures Lineage.Init(c, s) && Path(c, s, ls, t, {ShaUnread}) && ForeignDigest(c, t, y)
  {
    s := Newcomer(i, j, c.H(x), {x});
    NewcomerIsInitial(c, i, j, x);
    OnlyPeer(i, j);
    ls, t := PullUnchecked(c, s, i, s.nodes[i], [j], y, ReadShaError(i));
  }

  lemma {:induction false} Enumeration(members: set<Endpoint>) returns (reply: seq<Endpoint>)
    ensures Directory.Enumerates(reply, members)
  {
    if members == {} {
      reply := [];
    } else {
      var x :| x in members;
      reply := Enumeration(members - {x});
      reply := reply + [x];
    }
  }

  /** So they do, without any fault, from every start with an entry that a primer without digests left behind, if
    * some primer without an archive may pull through it. */
  lemma ALegacyEntryBreaksLineage(c: Config, s: State, y: Bytes)
    returns (ls: seq<Label>, t: State)
    requires Lineage.Start(c, s) && Lineage.Exposed(s) && !Lineage.Traced(c, s.born, c.H(y))
    ensures Path(c, s, ls, t, {}) && ForeignDigest(c, t, y)
  {
    var i, j :| i in s.nodes && !Peer.Usable(s.nodes[i].file) && j in s.entry.peers && j != i;
    var reply := Enumeration(s.entry.peers);
    Directory.PeerOrderMembers(reply, s.entry.peers, i, "", None);
    assert j in Directory.Without(reply, i);
    ls, t := PullUnchecked(c, s, i, s.nodes[i], reply, y, ReadSha(i));
  }

  /** A kill while the body is being written leaves a file that the next start takes for a local hit. */
  lemma AKillMidPullBreaksLineage(c: Config, i: Endpoint, j: Endpoint, x: Bytes, y: Bytes)
    returns (s: State, ls: seq<Label>, t: State)
    requires Lineage.GoodHash(c) && 0 <= c.ttl && i != j && c.H(x) != c.H(y) && |y| > 0
    ensures Lineage.Init(c, s) && Path(c, s, ls, t, {KilledMidPull}) && ForeignDigest(c, t, y)
  {
    s := Newcomer(i, j, c.H(x), {x});
    NewcomerIsInitial(c, i, j, x);
    var f: set<Fault> := {};
    OnlyPeer(i, j);
    ls, t := ReachTransfer(c, s, i, s.nodes[i], [j], ReadSha(i), c.H(x), Whole(y, true));
    ls, t, f := Own(c, s, ls, t, f, Crash(i), Node(Down, 1, Some(y), "", 0));
    ls, t, f := Own(c, s, ls, t, f, Boot(i), Node(Starting, 2, Some(y), "", 0));
    ls, t, f := Own(c, s, ls, t, f, CheckLocal(i), Node(Hashing, 2, Some(y), "", 0));
    ls, t := RecordFile(c, s, ls, t, f, i, y);
  }

  /** A build that is granted the lock, reports success and writes nothing: the file stays as it was. */
  lemma BuildNothing(c: Config, s: State, ls: seq<Label>, t: State, f: set<Fault>, i: Endpoint, n: Node)
    returns (ls': seq<Label>, t': State)
    requires Path(c, s, ls, t, f)
    requires i in t.nodes && t.nodes[i] == n && n.pc == Acquiring && AcquireMsg(i, n.life) in t.sent
    requires t.entry.lock.Free?
    ensures Path(c, s, ls', t', f)
    ensures i in t'.nodes && t'.nodes[i] == n.(pc := Hashing, leaseUntil := t.now + c.ttl) && t'.born == t.born
  {
    hide Path;
    var m, f' := n.(leaseUntil := t.now + c.ttl), f;
    ls', t', f' := Heard(c, s, ls, t, f', AcquireMsg(i, n.life), m.(pc := Building(true)));
    ls', t', f' := Own(c, s, ls', t', f', BuildEnd(i, true, None), m.(pc := Releasing(true)));
    ls', t', f' := Own(c, s, ls', t', f', ReleaseError(i), m.(pc := Hashing));
  }

  /** A rejected body that cannot be removed outlives the pull; if the build then reports success without
    * having written an archive, the rejected bytes are what gets registered. */
  lemma AnUnremovedBodyBreaksLineage(c: Config, i: Endpoint, j: Endpoint, x: Bytes, y: Bytes)
    returns (s: State, ls: seq<Label>, t: State)
    requires Lineage.GoodHash(c) && 0 <= c.ttl && i != j && c.H(x) != c.H(y)
    ensures Lineage.Init(c, s) && Path(c, s, ls, t, {NotRemoved}) && ForeignDigest(c, t, y)
  {
    s := Newcomer(i, j, c.H(x), {x});
    NewcomerIsInitial(c, i, j, x);
    OnlyPeer(i, j);
    ls, t := ReachTransfer(c, s, i, s.nodes[i], [j], ReadSha(i), c.H(x), Whole(y, false));
    var f := {NotRemoved};
    ls, t, f := Own(c, s, ls, t, f, EndPull(i), Node(Pulling(false, [], c.H(x)), 1, Some(y), "", 0));
    ls, t, f := Own(c, s, ls, t, f, Exhausted(i), Node(Acquiring, 1, Some(y), "", 0));
    ls, t := BuildNothing(c, s, ls, t, f, i, Node(Acquiring, 1, Some(y), "", 0));
    ls, t := RecordFile(c, s, ls, t, f, i, y);
  }

  // ---------------------------------------------------------------- two primers

  /** A start without a local archive, up to the look at the directory. */
  lemma StartListing(c: Config, s: State, ls: seq<Label>, t: State, f: set<Fault>, i: Endpoint, n: Node)
    returns (ls': seq<Label>, t': State)
    requires Path(c, s, ls, t, f)
    requires i in t.nodes && t.nodes[i] == n && n.pc.Down? && n.file.None?
    ensures Path(c, s, ls', t', f)
    ensures t' == t.(nodes := t.nodes[i := n.(pc := Listing(false), life := n.life + 1)])
  {
    hide Path;
    var m, f' := n.(life := n.life + 1), f;
    ls', t', f' := Own(c, s, ls, t, f', Boot(i), m.(pc := Starting));
    ls', t', f' := Own(c, s, ls', t', f', CheckLocal(i), m.(pc := Listing(false)));
  }

  /** A start that finds neither a local archive nor a peer and asks for the lock. */
  lemma AskForLock(c: Config, s: State, ls: seq<Label>, t: State, f: set<Fault>, i: Endpoint, n: Node)
    returns (ls': seq<Label>, t': State)
    requires Path(c, s, ls, t, f)
    requires i in t.nodes && t.nodes[i] == n && n.pc.Down? && n.file.None? && t.entry.peers == {}
    ensures Path(c, s, ls', t', f)
    ensures t' == t.(nodes := t.nodes[i := n.(pc := Acquiring, life := n.life + 1)],
                     sent := t.sent + {AcquireMsg(i, n.life + 1)})
  {
    hide Path;
    var m, f' := n.(life := n.life + 1), f;
    var etalon := Directory.Sha(t.entry);
    ls', t' := StartListing(c, s, ls, t, f, i, n);
    ls', t', f' := Own(c, s, ls', t', f', List(i, [], None), m.(pc := Listed(false, [])));
    ls', t', f' := Own(c, s, ls', t', f', ReadSha(i), m.(pc := Pulling(false, [], etalon)));
    ls', t', f' := Own(c, s, ls', t', f', Exhausted(i), m.(pc := Acquiring));
  }

  /** The store decides on the request: granted if the lock is free, otherwise the primer waits. */
  lemma Decide(c: Config, s: State, ls: seq<Label>, t: State, f: set<Fault>, i: Endpoint, n: Node)
    returns (ls': seq<Label>, t': State)
    requires Path(c, s, ls, t, f)
    requires i in t.nodes && t.nodes[i] == n && n.pc == Acquiring && AcquireMsg(i, n.life) in t.sent
    ensures Path(c, s, ls', t', f)
    ensures var free := Lease.Seen(t.entry.lock, t.now).Free?;
            t' == t.(nodes := t.nodes[i := if free then n.(pc := Building(true), leaseUntil := t.now + c.ttl)
                                           else n.(pc := Listing(true))],
                     entry := t.entry.(lock := if free then Lease.Held(i, t.now + c.ttl) else t.entry.lock))
  {
    var free := Lease.Seen(t.entry.lock, t.now).Free?;
    var f': set<Fault>;
    ls', t', f' := Heard(c, s, ls, t, f, AcquireMsg(i, n.life),
                         if free then n.(pc := Building(true), leaseUntil := t.now + c.ttl)
                         else n.(pc := Listing(true)));
  }

  /** A build that ends, with its release heard or not. */
  lemma FinishBuild(
    c: Config, s: State, ls: seq<Label>, t: State, f: set<Fault>, i: Endpoint, n: Node, x: Bytes)
    returns (ls': seq<Label>, t': State)
    requires Path(c, s, ls, t, f)
    requires i in t.nodes && t.nodes[i] == n && n.pc.Building? && Lease.HeldBy(t.entry.lock, t.now, i)
    ensures Path(c, s, ls', t', f)
    ensures t' == t.(nodes := t.nodes[i := n.(pc := Hashing, file := Some(x))],
                     sent := t.sent + {ReleaseMsg(i, n.life)},
                     born := t.born + {x},
                     entry := t.entry.(lock := Lease.Free))
  {
    hide Path;
    var m, f' := n.(file := Some(x)), f;
    ls', t', f' := Own(c, s, ls, t, f', BuildEnd(i, true, Some(x)), m.(pc := Releasing(true)));
    ls', t', f' := Heard(c, s, ls', t', f', ReleaseMsg(i, n.life), m.(pc := Hashing));
  }

  /** The first command of the registration pipeline. */
  lemma SendRecord(c: Config, s: State, ls: seq<Label>, t: State, f: set<Fault>, i: Endpoint, n: Node, x: Bytes)
    returns (ls': seq<Label>, t': State)
    requires Path(c, s, ls, t, f)
    requires i in t.nodes && t.nodes[i] == n && n.pc == Hashing && n.file == Some(x)
    ensures Path(c, s, ls', t', f)
    ensures t' == t.(nodes := t.nodes[i := n.(pc := Registering(c.H(x)))],
                     sent := t.sent + {RecordMsg(i, n.life, c.H(x)), MemberMsg(i, n.life)},
                     entry := Directory.WithMeta(t.entry, map["sha256" := c.H(x)]))
  {
    hide Path;
    var m, f' := n.(pc := Registering(c.H(x))), f;
    ls', t', f' := Own(c, s, ls, t, f', HashFile(i), m);
    ls', t', f' := Heard(c, s, ls', t', f', RecordMsg(i, n.life, c.H(x)), m);
  }

  /** The registration pipeline, heard, and the publication. */
  lemma RegisterAndServe(
    c: Config, s: State, ls: seq<Label>, t: State, f: set<Fault>, i: Endpoint, n: Node, x: Bytes)
    returns (ls': seq<Label>, t': State)
    requires Path(c, s, ls, t, f)
    requires i in t.nodes && t.nodes[i] == n && n.pc == Hashing && n.file == Some(x)
    ensures Path(c, s, ls', t', f)
    ensures t' == t.(nodes := t.nodes[i := n.(pc := Serving)],
                     sent := t.sent + {RecordMsg(i, n.life, c.H(x)), MemberMsg(i, n.life)},
                     registered := t.registered + {(i, c.H(x))},
                     entry := Directory.WithPeer(Directory.WithMeta(t.entry, map["sha256" := c.H(x)]), i))
  {
    hide Path;
    var f' := f;
    ls', t' := SendRecord(c, s, ls, t, f, i, n, x);
    ls', t', f' := Heard(c, s, ls', t', f', MemberMsg(i, n.life), n.(pc := Publishing));
    ls', t', f' := Own(c, s, ls', t', f', Publish(i), n.(pc := Serving));
  }

  /** A waiting primer that finds one peer pulls from it and verifies. */
  lemma WaitAndPull(
    c: Config, s: State, ls: seq<Label>, t: State, f: set<Fault>, i: Endpoint, n: Node, j: Endpoint, x: Bytes)
    returns (ls': seq<Label>, t': State)
    requires Path(c, s, ls, t, f)
    requires i in t.nodes && t.nodes[i] == n && n.pc == Listing(true) && i != j
    requires t.entry.peers == {j} && Directory.Sha(t.entry) == c.H(x)
    ensures Path(c, s, ls', t', f)
    ensures t' == t.(nodes := t.nodes[i := n.(pc := Hashing, file := Some(x))])
  {
    hide Path;
    var f' := f;
    OnlyPeer(i, j);
    ls', t', f' := Own(c, s, ls, t, f', List(i, [j], None), n.(pc := Listed(true, [j])));
    ls', t', f' := StartPull(c, s, ls', t', f', i, t'.nodes[i], ReadSha(i), c.H(x), Whole(x, true));
    ls', t', f' := Own(c, s, ls', t', f', EndPull(i), n.(pc := Hashing, file := Some(x)));
  }

  /** Two fresh primers and an empty directory. */
  function Empty(i: Endpoint, j: Endpoint): State {
    State(0, Directory.Entry(map[], {}, map[], Lease.Free),
          map[i := Node(Down, 0, None, "", 0), j := Node(Down, 0, None, "", 0)], {}, {}, {})
  }

  ghost predicate Fresh(s: State, i: Endpoint, j: Endpoint) {
    i != j && s == Empty(i, j)
  }

  /** The race for the lock: the first one builds, the second one is refused and waits. */
  lemma Race(c: Config, s: State, i: Endpoint, j: Endpoint)
    returns (ls: seq<Label>, t: State)
    requires Fresh(s, i, j) && 0 < c.ttl
    ensures Path(c, s, ls, t, {})
    ensures t == s.(nodes := map[i := Node(Building(true), 1, None, "", c.ttl),
                                 j := Node(Listing(true), 1, None, "", 0)],
                    entry := s.entry.(lock := Lease.Held(i, c.ttl)),
                    sent := {AcquireMsg(i, 1), AcquireMsg(j, 1)})
  {
    hide Path;
    NoStep(c, s);
    ls, t := [], s;
    ls, t := AskForLock(c, s, ls, t, {}, i, t.nodes[i]);
    ls, t := Decide(c, s, ls, t, {}, i, t.nodes[i]);
    ls, t := AskForLock(c, s, ls, t, {}, j, t.nodes[j]);
    ls, t := Decide(c, s, ls, t, {}, j, t.nodes[j]);
  }

  /** Two primers starting at once against an empty directory: one builds, the other is refused the lock,
    * waits, and gets the same bytes, verified; the lock is gone and both are registered. */
  lemma OneBuildsTheOtherPulls(c: Config, s: State, i: Endpoint, j: Endpoint, x: Bytes)
    returns (ls: seq<Label>, t: State)
    requires Fresh(s, i, j) && 0 < c.ttl
    ensures Lineage.Init(c, s) && Path(c, s, ls, t, {})
    ensures t.entry == Directory.Entry(map["sha256" := c.H(x)], {i, j}, map[], Lease.Free)
    ensures t.nodes == map[i := Node(Serving, 1, Some(x), "", c.ttl), j := Node(Serving, 1, Some(x), "", 0)]
    ensures t.registered == {(i, c.H(x)), (j, c.H(x))} && t.born == {x}
  {
    hide Path;
    ls, t := Race(c, s, i, j);
    ls, t := FinishBuild(c, s, ls, t, {}, i, t.nodes[i], x);
    ls, t := RegisterAndServe(c, s, ls, t, {}, i, t.nodes[i], x);
    ls, t := WaitAndPull(c, s, ls, t, {}, j, t.nodes[j], i, x);
    ls, t := RegisterAndServe(c, s, ls, t, {}, j, t.nodes[j], x);
  }

  /** A release whose reply is lost, and the process dies of the failed build. */
  lemma FailAndLinger(c: Config, s: State, ls: seq<Label>, t: State, f: set<Fault>, i: Endpoint, n: Node)
    returns (ls': seq<Label>, t': State)
    requires Path(c, s, ls, t, f)
    requires i in t.nodes && t.nodes[i] == n && n.pc.Building? && 0 <= c.ttl
    ensures Path(c, s, ls', t', f)
    ensures t' == t.(nodes := t.nodes[i := n.(pc := Down)],
                     sent := t.sent + {ReleaseMsg(i, n.life)},
                     now := t.now + c.ttl)
  {
    hide Path;
    var f' := f;
    ls', t', f' := Own(c, s, ls, t, f', BuildEnd(i, false, None), n.(pc := Releasing(false)));
    ls', t', f' := Own(c, s, ls', t', f', ReleaseError(i), n.(pc := Down));
    ls', t', f' := Extend(c, s, ls', t', f', Tick(c.ttl));
  }

  /** A process fails with its release still in flight; a TTL later its successor on the same endpoint
    * has the lease. */
  lemma Regain(c: Config, s: State, i: Endpoint, j: Endpoint)
    returns (ls: seq<Label>, t: State)
    requires Fresh(s, i, j) && 0 < c.ttl
    ensures Path(c, s, ls, t, {})
    ensures t == s.(now := c.ttl,
                    nodes := map[i := Node(Building(true), 2, None, "", 2 * c.ttl), j := Node(Down, 0, None, "", 0)],
                    entry := s.entry.(lock := Lease.Held(i, 2 * c.ttl)),
                    sent := {AcquireMsg(i, 1), ReleaseMsg(i, 1), AcquireMsg(i, 2)})
  {
    hide Path;
    NoStep(c, s);
    ls, t := [], s;
    ls, t := AskForLock(c, s, ls, t, {}, i, t.nodes[i]);
    ls, t := Decide(c, s, ls, t, {}, i, t.nodes[i]);
    ls, t := FailAndLinger(c, s, ls, t, {}, i, t.nodes[i]);
    ls, t := AskForLock(c, s, ls, t, {}, i, t.nodes[i]);
    ls, t := Decide(c, s, ls, t, {}, i, t.nodes[i]);
  }

  /** The lock names an endpoint, not a process: a release that a dead process left in flight takes the
    * lease of its successor on the same endpoint away, and two primers then build at once. */
  lemma AStaleReleaseBreaksExclusion(c: Config, s: State, i: Endpoint, j: Endpoint)
    returns (ls: seq<Label>, t: State)
    requires Fresh(s, i, j) && 0 < c.ttl
    ensures Lineage.Init(c, s) && Path(c, s, ls, t, {StaleRelease})
    ensures Exclusion.HoldsLease(t, i) && Exclusion.HoldsLease(t, j)
  {
    hide Path;
    ls, t := Regain(c, s, i, j);
    var f: set<Fault>;
    ls, t, f := Heard(c, s, ls, t, {}, ReleaseMsg(i, 1), t.nodes[i]);
    assert f == {StaleRelease};
    ls, t := AskForLock(c, s, ls, t, f, j, t.nodes[j]);
    ls, t := Decide(c, s, ls, t, f, j, t.nodes[j]);
  }
}
