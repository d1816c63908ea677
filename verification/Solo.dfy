/** The imperative code path inside the transition system: whatever outcome the contract of Orchestrator.Run allows,
  * the steps of that one primer, with nobody else's in between, reach the same file and the same entry.
  */
module Solo {
  import opened Prelude
  import opened Cluster
  import Lease
  import Directory
  import Lineage
  import O = Orchestrator
  import Peer

  /** What may go wrong, and what a build writes. */
  datatype Env = Env(faults: set<Fault>, output: Option<Bytes>)

  /** A step that this environment allows. */
  ghost predicate Allowed(t: State, env: Env, l: Label) {
    Enabled(t, l) && Faults(t, l) <= env.faults && (l.BuildEnd? ==> l.output == env.output)
  }

  /** A run from `s` to `t` in this environment in which every step is primer `i`'s. */
  ghost predicate Alone(c: Config, s: State, ls: seq<Label>, t: State, i: Endpoint, env: Env) {
    && Valid(c, s, ls) && Exec(c, s, ls) == t && RunFaults(c, s, ls) <= env.faults
    && forall k :: 0 <= k < |ls| ==> Lineage.Owner(ls[k], i) && (ls[k].BuildEnd? ==> ls[k].output == env.output)
  }

  lemma NoStep(c: Config, s: State, i: Endpoint, env: Env)
    ensures Alone(c, s, [], s, i, env)
  {
  }

  lemma Extend(c: Config, s: State, ls: seq<Label>, t: State, i: Endpoint, env: Env, l: Label)
    returns (ls': seq<Label>, t': State)
    requires Alone(c, s, ls, t, i, env) && Allowed(t, env, l) && Lineage.Owner(l, i)
    ensures Alone(c, s, ls', t', i, env) && t' == Apply(c, t, l)
  {
    ls', t' := ls + [l], Apply(c, t, l);
    assert [l][1..] == [] && [l][0] == l;
    assert Valid(c, t', []) && Exec(c, t, [l]) == Exec(c, t', []);
    assert RunFaults(c, t, [l]) == Faults(t, l) + RunFaults(c, t', []);
    PathConcat(c, s, ls, t, RunFaults(c, s, ls), [l], t', Faults(t, l));
  }

  /** A step of the primer itself, which takes it to `n`. */
  lemma Own(c: Config, s: State, ls: seq<Label>, t: State, i: Endpoint, env: Env, l: Label, n: Node)
    returns (ls': seq<Label>, t': State)
    requires Alone(c, s, ls, t, i, env)
    requires Local(l) && !l.Shutdown? && Allowed(t, env, l) && l.i == i && Moved(c, t, l) == n
    ensures Alone(c, s, ls', t', i, env)
    ensures t' == t.(nodes := t.nodes[i := n], sent := t.sent + Requests(c, t, l), born := t.born + Births(l))
  {
    ls', t' := Extend(c, s, ls, t, i, env, l);
  }

  /** The store executes one of its messages, and the reply takes it to `n`. */
  lemma Heard(c: Config, s: State, ls: seq<Label>, t: State, i: Endpoint, env: Env, m: Msg, n: Node)
    returns (ls': seq<Label>, t': State)
    requires Alone(c, s, ls, t, i, env)
    requires Allowed(t, env, Land(m, true)) && m.sender == i && Answered(c, t, m, true) == n
    ensures Alone(c, s, ls', t', i, env)
    ensures t' == Executed(c, t, m, true) && t'.nodes == t.nodes[i := n]
  {
    ls', t' := Extend(c, s, ls, t, i, env, Land(m, true));
  }

  /** The primer is at `n`; otherwise only its own requests and its build have left traces so far. */
  ghost predicate At(s: State, t: State, i: Endpoint, n: Node) {
    && i in s.nodes && t.nodes == s.nodes[i := n]
    && t.now == s.now && s.sent <= t.sent && t.registered == s.registered
    && t.entry == s.entry.(lock := t.entry.lock)
  }

  // ---------------------------------------------------------------- one pass over the peers

  /** Only an environment with that fault has transfers that cannot be removed. */
  predicate Removes(env: Env, tr: Peer.Transfer) {
    tr.Body? && !tr.removable ==> NotRemoved in env.faults
  }

  /** ... and likewise reads that fail. */
  ghost predicate Suits(env: Env, pass: O.Pass) {
    (!pass.sha.Answered? ==> ShaUnread in env.faults) && forall p :: Removes(env, pass.serve(p))
  }

  lemma OnePull(c: Config, s: State, ls: seq<Label>, t: State, i: Endpoint, env: Env, n: Node, tr: Peer.Transfer)
    returns (ls': seq<Label>, t': State)
    requires Alone(c, s, ls, t, i, env) && At(s, t, i, n) && n.pc.Pulling? && n.pc.peers != []
    requires Removes(env, tr)
    ensures Alone(c, s, ls', t', i, env) && t'.entry == t.entry
    ensures var pc := Pulling(n.pc.wait, n.pc.peers[1..], n.pc.etalon);
            At(s, t', i, n.(file := Peer.Settled(c.H, n.file, tr, n.pc.etalon),
                            pc := if Peer.Accepted(c.H, tr, n.pc.etalon) then Hashing else pc))
  {
    hide Alone;
    var wait, peers, etalon := n.pc.wait, n.pc.peers[1..], n.pc.etalon;
    if tr.Body? {
      var m := n.(file := Some(tr.bytes), pc := Transferring(wait, peers, etalon, tr));
      ls', t' := Own(c, s, ls, t, i, env, BeginPull(i, tr), m);
      ls', t' := Own(c, s, ls', t', i, env, EndPull(i),
                     m.(file := Peer.Settled(c.H, m.file, tr, etalon),
                        pc := if Peer.Accepted(c.H, tr, etalon) then Hashing else Pulling(wait, peers, etalon)));
    } else {
      ls', t' := Own(c, s, ls, t, i, env, BeginPull(i, tr), n.(pc := Pulling(wait, peers, etalon)));
    }
  }

  /** The first `k` peers all fail. */
  lemma {:induction false} FailedPulls(
    c: Config, s: State, ls: seq<Label>, t: State, i: Endpoint, env: Env, n: Node,
    serve: Endpoint -> Peer.Transfer, k: nat)
    returns (ls': seq<Label>, t': State)
    requires Alone(c, s, ls, t, i, env) && At(s, t, i, n) && n.pc.Pulling? && k <= |n.pc.peers|
    requires forall j :: 0 <= j < k ==> !Peer.Accepted(c.H, serve(n.pc.peers[j]), n.pc.etalon)
    requires forall p :: Removes(env, serve(p))
    ensures Alone(c, s, ls', t', i, env) && t'.entry == t.entry
    ensures At(s, t', i, n.(file := Peer.SettledAll(c.H, n.file, O.Transfers(n.pc.peers[..k], serve), n.pc.etalon),
                            pc := Pulling(n.pc.wait, n.pc.peers[k..], n.pc.etalon)))
  {
    var peers, etalon := n.pc.peers, n.pc.etalon;
    if k == 0 {
      ls', t' := ls, t;
      assert peers[0..] == peers && O.Transfers(peers[..0], serve) == [];
    } else {
      ls', t' := FailedPulls(c, s, ls, t, i, env, n, serve, k - 1);
      var ts := O.Transfers(peers[..k], serve);
      assert ts[..k - 1] == O.Transfers(peers[..k - 1], serve) && ts[k - 1] == serve(peers[k - 1]);
      assert peers[k - 1..][1..] == peers[k..];
      ls', t' := OnePull(c, s, ls', t', i, env, t'.nodes[i], serve(peers[k - 1]));
    }
  }

  /** The loop over a list, from the first peer to the first good one, or to the end. */
  lemma PullsInOrder(
    c: Config, s: State, ls: seq<Label>, t: State, i: Endpoint, env: Env, n: Node,
    serve: Endpoint -> Peer.Transfer, r: Option<Endpoint>, after: Peer.File)
    returns (ls': seq<Label>, t': State)
    requires Alone(c, s, ls, t, i, env) && At(s, t, i, n) && n.pc.Pulling?
    requires O.PulledInOrder(c.H, n.pc.peers, serve, n.pc.etalon, n.file, r, after)
    requires forall p :: Removes(env, serve(p))
    ensures Alone(c, s, ls', t', i, env) && t'.entry == t.entry
    ensures At(s, t', i, n.(file := after, pc := if r.Some? then Hashing else Pulling(n.pc.wait, [], n.pc.etalon)))
  {
    var peers, etalon := n.pc.peers, n.pc.etalon;
    var k := O.FirstGood(c.H, peers, serve, etalon);
    ls', t' := FailedPulls(c, s, ls, t, i, env, n, serve, k);
    if k < |peers| {
      ls', t' := OnePull(c, s, ls', t', i, env, t'.nodes[i], serve(peers[k]));
    } else {
      assert peers[..k] == peers && peers[k..] == [];
    }
  }

  /** The look at the directory. */
  lemma LookUp(
    c: Config, s: State, ls: seq<Label>, t: State, i: Endpoint, env: Env, n: Node, reply: seq<Endpoint>,
    zones: Option<map<Endpoint, string>>, read: Directory.Link)
    returns (ls': seq<Label>, t': State)
    requires Alone(c, s, ls, t, i, env) && At(s, t, i, n) && n.pc.Listing? && Directory.Enumerates(reply, s.entry.peers)
    requires !read.Answered? ==> ShaUnread in env.faults
    ensures Alone(c, s, ls', t', i, env) && t'.entry == t.entry
    ensures var peers, etalon := Directory.PeerOrder(reply, i, n.zone, zones), O.Etalon(s.entry, read);
            At(s, t', i, n.(pc := Pulling(n.pc.wait, peers, etalon)))
  {
    hide Directory.PeerOrder, Alone, Directory.Enumerates;
    var wait, peers := n.pc.wait, Directory.PeerOrder(reply, i, n.zone, zones);
    ls', t' := Own(c, s, ls, t, i, env, List(i, reply, zones), n.(pc := Listed(wait, peers)));
    ls', t' := Own(c, s, ls', t', i, env, if read.Answered? then ReadSha(i) else ReadShaError(i),
                   n.(pc := Pulling(wait, peers, O.Etalon(s.entry, read))));
  }

  /** A whole pass, from the look at the directory on. */
  lemma OnePass(
    c: Config, s: State, ls: seq<Label>, t: State, i: Endpoint, env: Env, n: Node, pass: O.Pass, file: Peer.File,
    r: Option<Endpoint>, after: Peer.File)
    returns (ls': seq<Label>, t': State, etalon: Digest)
    requires Alone(c, s, ls, t, i, env) && At(s, t, i, n) && n.pc.Listing?
    requires O.PassGives(c.H, i, n.zone, pass, s.entry, file, r, after) && (r.None? ==> file == n.file)
    requires Suits(env, pass)
    ensures Alone(c, s, ls', t', i, env) && t'.entry == t.entry
    ensures At(s, t', i, n.(file := after, pc := if r.Some? then Hashing else Pulling(n.pc.wait, [], etalon)))
  {
    var zones := O.ZonesRead(s.entry, pass);
    etalon := O.Etalon(s.entry, pass.sha);
    var peers :|
      && Directory.PeerList(peers, s.entry.peers, i, n.zone, zones)
      && O.PulledInOrder(c.H, peers, pass.serve, etalon, file, r, after);
    var reply := Directory.EveryPeerListIsAnOrder(peers, s.entry.peers, i, n.zone, zones);
    ls', t' := LookUp(c, s, ls, t, i, env, n, reply, zones, pass.sha);
    hide Directory.PeerOrder, Alone, Directory.Enumerates, O.PulledInOrder;
    ls', t' := PullsInOrder(c, s, ls', t', i, env, t'.nodes[i], pass.serve, r, after);
  }

  // ---------------------------------------------------------------- the lifecycle

  lemma StartUp(c: Config, s: State, i: Endpoint, env: Env, n: Node) returns (ls: seq<Label>, t: State)
    requires i in s.nodes && s.nodes[i] == n && n.pc.Down?
    ensures Alone(c, s, ls, t, i, env)
    ensures At(s, t, i, n.(pc := if Peer.Usable(n.file) then Hashing else Listing(false), life := n.life + 1))
    ensures t.entry == s.entry
  {
    NoStep(c, s, i, env);
    hide Alone;
    var m := n.(life := n.life + 1);
    ls, t := Own(c, s, [], s, i, env, Boot(i), m.(pc := Starting));
    ls, t := Own(c, s, ls, t, i, env, CheckLocal(i), m.(pc := if Peer.Usable(n.file) then Hashing else Listing(false)));
  }

  /** The lock is asked for after a first pass that found nothing. */
  lemma AskForLock(c: Config, s: State, ls: seq<Label>, t: State, i: Endpoint, env: Env, n: Node)
    returns (ls': seq<Label>, t': State)
    requires Alone(c, s, ls, t, i, env) && At(s, t, i, n) && n.pc.Pulling? && !n.pc.wait && n.pc.peers == []
    requires t.entry == s.entry
    ensures Alone(c, s, ls', t', i, env)
    ensures At(s, t', i, if Lease.Succeeds(s.entry.lock, s.now, Lease.Acquire(i))
                         then n.(pc := Building(true), leaseUntil := s.now + c.ttl) else n.(pc := Listing(true)))
  {
    hide Alone;
    ls', t' := Own(c, s, ls, t, i, env, Exhausted(i), n.(pc := Acquiring));
    ls', t' := Heard(c, s, ls', t', i, env, AcquireMsg(i, n.life),
                     if Lease.Succeeds(s.entry.lock, s.now, Lease.Acquire(i))
                     then n.(pc := Building(true), leaseUntil := s.now + c.ttl) else n.(pc := Listing(true)));
  }

  lemma BuildAndRelease(
    c: Config, s: State, ls: seq<Label>, t: State, i: Endpoint, env: Env, n: Node)
    returns (ls': seq<Label>, t': State)
    requires Alone(c, s, ls, t, i, env) && At(s, t, i, n) && n.pc.Building?
    ensures Alone(c, s, ls', t', i, env)
    ensures At(s, t', i, n.(file := if env.output.Some? then env.output else n.file, pc := Hashing))
  {
    hide Alone;
    var m := n.(file := if env.output.Some? then env.output else n.file);
    ls', t' := Own(c, s, ls, t, i, env, BuildEnd(i, true, env.output), m.(pc := Releasing(true)));
    ls', t' := Own(c, s, ls', t', i, env, ReleaseError(i), m.(pc := Hashing));
  }

  /** Up to the file that is about to be hashed. */
  lemma ReachArchive(c: Config, s: State, i: Endpoint, env: Env, n: Node, w: O.World, m: O.Method, after: Peer.File)
    returns (ls: seq<Label>, t: State, n': Node)
    requires i in s.nodes && s.nodes[i] == n && n.pc.Down?
    requires O.Outcome(c.H, i, n.zone, w, s.entry, s.now, n.file, m, after)
    requires env.output == w.build.output && Suits(env, w.first)
    requires forall k :: 0 <= k < |w.polls| ==> Suits(env, w.polls[k])
    ensures Alone(c, s, ls, t, i, env) && At(s, t, i, n') && n'.pc == Hashing && n'.file == after
  {
    ls, t := StartUp(c, s, i, env, n);
    hide Alone, O.PassGives;
    var etalon: Digest;
    if m.PulledFrom? {
      ls, t, etalon := OnePass(c, s, ls, t, i, env, t.nodes[i], w.first, n.file, Some(m.peer), after);
    } else if m.BuiltLocally? {
      var left :|
        && O.PassGives(c.H, i, n.zone, w.first, s.entry, n.file, None, left)
        && after == if w.build.output.Some? then w.build.output else left;
      ls, t, etalon := OnePass(c, s, ls, t, i, env, t.nodes[i], w.first, n.file, None, left);
      ls, t := AskForLock(c, s, ls, t, i, env, t.nodes[i]);
      ls, t := BuildAndRelease(c, s, ls, t, i, env, t.nodes[i]);
    } else if m.PulledAfterWait? {
      var left, before, k :|
        && O.PassGives(c.H, i, n.zone, w.first, s.entry, n.file, None, left)
        && 0 <= k < |w.polls| && w.polls[k].list.Answered?
        && O.PassGives(c.H, i, n.zone, w.polls[k], s.entry, before, Some(m.peer), after);
      ls, t, etalon := OnePass(c, s, ls, t, i, env, t.nodes[i], w.first, n.file, None, left);
      ls, t := AskForLock(c, s, ls, t, i, env, t.nodes[i]);
      ls, t, etalon := OnePass(c, s, ls, t, i, env, t.nodes[i], w.polls[k], before, Some(m.peer), after);
    }
    n' := t.nodes[i];
  }

  lemma SendRecord(c: Config, s: State, ls: seq<Label>, t: State, i: Endpoint, env: Env, n: Node, x: Bytes)
    returns (ls': seq<Label>, t': State)
    requires Alone(c, s, ls, t, i, env) && At(s, t, i, n) && n.pc == Hashing && n.file == Some(x)
    ensures Alone(c, s, ls', t', i, env)
    ensures t'.nodes == s.nodes[i := n.(pc := Registering(c.H(x)))] && t'.registered == s.registered
    ensures t'.entry == Directory.WithMeta(t.entry, map["sha256" := c.H(x)])
    ensures MemberMsg(i, n.life) in t'.sent
  {
    hide Alone;
    var m := n.(pc := Registering(c.H(x)));
    ls', t' := Own(c, s, ls, t, i, env, HashFile(i), m);
    ls', t' := Heard(c, s, ls', t', i, env, RecordMsg(i, n.life, c.H(x)), m);
  }

  lemma JoinPeers(c: Config, s: State, ls: seq<Label>, t: State, i: Endpoint, env: Env, n: Node, sha: Digest)
    returns (ls': seq<Label>, t': State)
    requires Alone(c, s, ls, t, i, env) && i in t.nodes && t.nodes[i] == n.(pc := Registering(sha))
    requires MemberMsg(i, n.life) in t.sent
    ensures Alone(c, s, ls', t', i, env) && t'.nodes == t.nodes[i := n.(pc := Publishing)]
    ensures t'.entry == Directory.WithPeer(t.entry, i) && t'.registered == t.registered + {(i, sha)}
  {
    hide Alone;
    ls', t' := Heard(c, s, ls, t, i, env, MemberMsg(i, n.life), n.(pc := Publishing));
  }

  lemma StartServing(c: Config, s: State, ls: seq<Label>, t: State, i: Endpoint, env: Env, n: Node)
    returns (ls': seq<Label>, t': State)
    requires Alone(c, s, ls, t, i, env) && i in t.nodes && t.nodes[i] == n.(pc := Publishing)
    ensures Alone(c, s, ls', t', i, env) && t'.nodes == t.nodes[i := n.(pc := Serving)]
    ensures t'.entry == t.entry && t'.registered == t.registered
  {
    hide Alone;
    ls', t' := Own(c, s, ls, t, i, env, Publish(i), n.(pc := Serving));
  }

  lemma RegisterAndServe(c: Config, s: State, ls: seq<Label>, t: State, i: Endpoint, env: Env, n: Node, x: Bytes)
    returns (ls': seq<Label>, t': State)
    requires Alone(c, s, ls, t, i, env) && At(s, t, i, n) && n.pc == Hashing && n.file == Some(x)
    ensures Alone(c, s, ls', t', i, env)
    ensures t'.nodes == s.nodes[i := n.(pc := Serving)] && t'.registered == s.registered + {(i, c.H(x))}
    ensures t'.entry == Directory.WithPeer(Directory.WithMeta(t.entry, map["sha256" := c.H(x)]), i)
  {
    ls', t' := SendRecord(c, s, ls, t, i, env, n, x);
    hide Alone;
    ls', t' := JoinPeers(c, s, ls', t', i, env, n, c.H(x));
    ls', t' := StartServing(c, s, ls', t', i, env, n);
  }

  /** Some pass of the run could not read the stored digest. */
  ghost predicate Unread(w: O.World) {
    !w.first.sha.Answered? || exists k :: 0 <= k < |w.polls| && !w.polls[k].sha.Answered?
  }

  predicate Sticks(tr: Peer.Transfer) { tr.Body? && !tr.removable }

  /** Some pass of the run meets a body that could not be removed if it were rejected. */
  ghost predicate Sticky(w: O.World) {
    || (exists p :: Sticks(w.first.serve(p)))
    || exists k, p :: 0 <= k < |w.polls| && Sticks(w.polls[k].serve(p))
  }

  ghost function EnvOf(w: O.World): Env {
    Env((if Unread(w) then {ShaUnread} else {}) + (if Sticky(w) then {NotRemoved} else {}), w.build.output)
  }

  lemma {:induction false} NothingElseIsBuilt(ls: seq<Label>, output: Option<Bytes>)
    requires forall k :: 0 <= k < |ls| && ls[k].BuildEnd? ==> ls[k].output == output
    ensures forall b :: b in Lineage.Built(ls) ==> output == Some(b)
  {
    if ls != [] {
      assert forall k :: 0 <= k < |ls| - 1 ==> ls[1..][k] == ls[k + 1];
      NothingElseIsBuilt(ls[1..], output);
    }
  }

  /** For every successful outcome of Run there is a run of that primer alone that ends with the same file, this
    * file's digest and the primer's own membership in the directory, and nothing else different. It has no fault that
    * the outcome's environment did not have, and builds nothing else. */
  lemma {:induction false} EveryOutcomeIsARun(c: Config, s: State, i: Endpoint, w: O.World, m: O.Method, x: Bytes)
    returns (ls: seq<Label>, t: State)
    requires i in s.nodes && s.nodes[i].pc.Down?
    requires O.Outcome(c.H, i, s.nodes[i].zone, w, s.entry, s.now, s.nodes[i].file, m, Some(x))
    ensures Valid(c, s, ls) && Exec(c, s, ls) == t && forall k :: 0 <= k < |ls| ==> Lineage.Owner(ls[k], i)
    ensures i in t.nodes && t.nodes == s.nodes[i := t.nodes[i]]
    ensures t.nodes[i].pc == Serving && t.nodes[i].file == Some(x)
    ensures var registered := Directory.WithPeer(Directory.WithMeta(s.entry, map["sha256" := c.H(x)]), i);
            t.entry == registered.(lock := t.entry.lock)
    ensures t.registered == s.registered + {(i, c.H(x))}
    ensures forall fault :: fault in RunFaults(c, s, ls) ==>
              (fault == ShaUnread && Unread(w)) || (fault == NotRemoved && Sticky(w))
    ensures forall b :: b in Lineage.Built(ls) ==> w.build.output == Some(b)
  {
    var n: Node;
    var env := EnvOf(w);
    ls, t, n := ReachArchive(c, s, i, env, s.nodes[i], w, m, Some(x));
    ls, t := RegisterAndServe(c, s, ls, t, i, env, n, x);
    NothingElseIsBuilt(ls, w.build.output);
  }

  /** So the lineage of every run carries over to the code: from an ordinary start that is not exposed, if every digest
    * could be read and every rejected body removed, what Run registers is the digest of a file that was genuine before
    * or that this build wrote. */
  lemma RunRegistersGenuineArchives(c: Config, s: State, i: Endpoint, w: O.World, m: O.Method, x: Bytes)
    requires Lineage.GoodHash(c) && Lineage.Start(c, s) && !Lineage.Exposed(s)
    requires i in s.nodes
    requires O.Outcome(c.H, i, s.nodes[i].zone, w, s.entry, s.now, s.nodes[i].file, m, Some(x))
    requires !Unread(w) && !Sticky(w)
    ensures exists b :: (b in s.born || w.build.output == Some(b)) && c.H(b) == c.H(x)
  {
    var ls, t := EveryOutcomeIsARun(c, s, i, w, m, x);
    assert ls[..|ls|] == ls;
    Lineage.StoredDigestsAreBorn(c, s, ls, |ls|);
    assert (i, c.H(x)) in t.registered;
    var b :| b in s.born + Lineage.Built(ls) && c.H(b) == c.H(x);
  }
}
