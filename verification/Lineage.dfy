/** Where the digests in the directory come from.
  *
  * In every run, with peers serving any bytes they like, the stored digest is the digest of a file that
  * some primer built or had on disk from the start. The runs exclude three faults: a failed read of the
  * stored digest, a kill while a body is being written, and a file that cannot be removed. Each exclusion
  * is needed; module Runs breaks the property with each of them.
  */
module Lineage {
  import opened Prelude
  import opened Cluster
  import Directory
  import Peer

  ghost predicate GoodHash(c: Config) {
    forall b: Bytes :: c.H(b) != ""
  }

  ghost predicate Traced(c: Config, born: set<Bytes>, d: Digest) {
    exists b :: b in born && c.H(b) == d
  }

  /** Free of the faults under which provenance is lost. */
  ghost predicate Clean(s: State, l: Label)
    requires Enabled(s, l)
  {
    Faults(s, l) <= {StaleRelease}
  }

  ghost predicate CleanRun(c: Config, s: State, ls: seq<Label>)
    requires Valid(c, s, ls)
  {
    RunFaults(c, s, ls) <= {StaleRelease}
  }

  /** All processes down, nothing in flight. The directory may already know the archive. */
  ghost predicate Start(c: Config, s: State) {
    && s.sent == {} && s.registered == {}
    && (forall i :: i in s.nodes ==>
          && s.nodes[i].pc.Down?
          && s.nodes[i].leaseUntil <= s.now
          && (s.nodes[i].file.Some? ==> s.nodes[i].file.value in s.born))
    && EntryOk(c, s)
    && (s.entry.lock.Held? ==> s.entry.lock.expiry <= s.now + c.ttl)
    && 0 <= c.ttl
  }

  /** No entry was left by a primer that stored no digest. */
  ghost predicate Recorded(s: State) {
    s.entry.peers != {} ==> Directory.Sha(s.entry) != ""
  }

  ghost predicate Init(c: Config, s: State) {
    Start(c, s) && Recorded(s)
  }

  /** There is an entry without a digest, and a primer without an archive that may pull through it. */
  ghost predicate Exposed(s: State) {
    && Directory.Sha(s.entry) == ""
    && exists i, j :: i in s.nodes && !Peer.Usable(s.nodes[i].file) && j in s.entry.peers && j != i
  }

  ghost predicate EntryOk(c: Config, s: State) {
    Directory.Sha(s.entry) != "" ==> Traced(c, s.born, Directory.Sha(s.entry))
  }

  /** A primer with an archive of its own goes from start to serving without a look at the peer list. */
  predicate OwnArchive(n: Node) {
    && Peer.Usable(n.file)
    && (n.pc.Down? || n.pc.Starting? || n.pc.Hashing? || n.pc.Registering? || n.pc.Publishing? || n.pc.Serving?)
  }

  /** As long as there is no digest, only primers with an archive of their own have others to pull from. */
  ghost predicate Sheltered(s: State, i: Endpoint)
    requires i in s.nodes
  {
    Directory.Sha(s.entry) == "" && s.entry.peers - {i} != {} ==> OwnArchive(s.nodes[i])
  }

  ghost predicate FileOk(c: Config, born: set<Bytes>, file: Peer.File) {
    file.Some? ==> Traced(c, born, c.H(file.value))
  }

  /** What one primer's step in the lifecycle says about its file and what it has read. `known`: the
    * directory has a digest. */
  ghost predicate NodeOk(c: Config, born: set<Bytes>, known: bool, n: Node) {
    match n.pc
    case Listed(_, peers) => FileOk(c, born, n.file) && (peers != [] ==> known)
    case Pulling(_, peers, etalon) =>
      && FileOk(c, born, n.file)
      && (peers != [] ==> etalon != "" && Traced(c, born, etalon))
    case Transferring(_, peers, etalon, t) =>
      && etalon != "" && Traced(c, born, etalon)
      && t.Body? && t.removable && n.file == Some(t.bytes)
    case Registering(sha) => FileOk(c, born, n.file) && n.file.Some? && sha == c.H(n.file.value)
    case _ => FileOk(c, born, n.file)
  }

  ghost predicate MsgOk(c: Config, born: set<Bytes>, known: bool, m: Msg) {
    match m
    case RecordMsg(_, _, sha) => sha != "" && Traced(c, born, sha)
    case MemberMsg(_, _) => known
    case _ => true
  }

  ghost predicate Inv(c: Config, s: State) {
    && EntryOk(c, s)
    && (forall i :: i in s.nodes ==> NodeOk(c, s.born, Directory.Sha(s.entry) != "", s.nodes[i]))
    && (forall m :: m in s.sent ==> MsgOk(c, s.born, Directory.Sha(s.entry) != "", m))
    && (forall i :: i in s.nodes ==> Sheltered(s, i))
    && (forall r :: r in s.registered ==> Traced(c, s.born, r.1))
  }

  lemma StartInv(c: Config, s: State)
    requires Start(c, s) && !Exposed(s)
    ensures Inv(c, s)
  {
    forall i | i in s.nodes && Directory.Sha(s.entry) == "" && s.entry.peers - {i} != {}
      ensures Peer.Usable(s.nodes[i].file)
    {
      var j :| j in s.entry.peers - {i};
    }
  }

  lemma TracedGrows(c: Config, born: set<Bytes>, more: set<Bytes>, d: Digest)
    requires born <= more && Traced(c, born, d)
    ensures Traced(c, more, d)
  {
    var b :| b in born && c.H(b) == d;
    assert b in more;
  }

  lemma NodeOkGrows(c: Config, born: set<Bytes>, known: bool, more: set<Bytes>, known': bool, n: Node)
    requires NodeOk(c, born, known, n) && born <= more && (known ==> known')
    ensures NodeOk(c, more, known', n)
  {
    forall d | Traced(c, born, d)
      ensures Traced(c, more, d)
    {
      TracedGrows(c, born, more, d);
    }
  }

  lemma MsgOkGrows(c: Config, born: set<Bytes>, known: bool, more: set<Bytes>, known': bool, m: Msg)
    requires MsgOk(c, born, known, m) && born <= more && (known ==> known')
    ensures MsgOk(c, more, known', m)
  {
    if m.RecordMsg? { TracedGrows(c, born, more, m.sha); }
  }

  /** The node a label is about; its own step keeps its condition, everyone else's is untouched. */
  predicate Owner(l: Label, i: Endpoint) {
    match l
    case Tick(_) => false
    case Land(m, _) => m.sender == i
    case _ => l.i == i
  }

  lemma LocalStep(c: Config, s: State, l: Label)
    requires GoodHash(c) && EntryOk(c, s) && Local(l) && Enabled(s, l) && Clean(s, l) && Sheltered(s, l.i)
    requires NodeOk(c, s.born, Directory.Sha(s.entry) != "", s.nodes[l.i])
    requires !l.BuildEnd?
    ensures NodeOk(c, s.born, Directory.Sha(s.entry) != "", Moved(c, s, l))
  {
    if l.List? {
      var ps := Directory.PeerOrder(l.reply, l.i, s.nodes[l.i].zone, l.zones);
      Directory.PeerOrderMembers(l.reply, s.entry.peers, l.i, s.nodes[l.i].zone, l.zones);
      if ps != [] { assert ps[0] in ps && ps[0] in s.entry.peers - {l.i}; }
    }
  }

  lemma BuildStep(c: Config, s: State, l: Label)
    requires l.BuildEnd? && Enabled(s, l)
    requires NodeOk(c, s.born, Directory.Sha(s.entry) != "", s.nodes[l.i])
    ensures NodeOk(c, s.born + Births(l), Directory.Sha(s.entry) != "", Moved(c, s, l))
  {
    if l.output.Some? {
      assert l.output.value in s.born + Births(l);
    }
  }

  lemma AnsweredStep(c: Config, s: State, m: Msg, heard: bool)
    requires m.sender in s.nodes && NodeOk(c, s.born, Directory.Sha(s.entry) != "", s.nodes[m.sender])
    ensures NodeOk(c, s.born, Directory.Sha(s.entry) != "", Answered(c, s, m, heard))
  {
  }

  lemma OwnStep(c: Config, s: State, l: Label, i: Endpoint)
    requires GoodHash(c) && Inv(c, s) && Enabled(s, l) && Clean(s, l) && Owner(l, i)
    ensures var s' := Apply(c, s, l);
            i in s'.nodes && NodeOk(c, s'.born, Directory.Sha(s'.entry) != "", s'.nodes[i])
  {
    var s' := Apply(c, s, l);
    var known, known' := Directory.Sha(s.entry) != "", Directory.Sha(s'.entry) != "";
    EntryKept(c, s, l);
    if l.Land? {
      AnsweredStep(c, s, l.m, l.heard);
      NodeOkGrows(c, s.born, known, s'.born, known', s'.nodes[i]);
    } else if l.BuildEnd? {
      BuildStep(c, s, l);
    } else {
      LocalStep(c, s, l);
      NodeOkGrows(c, s.born, known, s'.born, known', s'.nodes[i]);
    }
  }

  lemma OthersKept(c: Config, s: State, l: Label)
    requires Enabled(s, l)
    ensures var s' := Apply(c, s, l);
            && s'.nodes.Keys == s.nodes.Keys
            && s.born <= s'.born
            && forall j :: j in s.nodes && !Owner(l, j) ==> s'.nodes[j] == s.nodes[j]
  {
  }

  lemma EntryKept(c: Config, s: State, l: Label)
    requires GoodHash(c) && Inv(c, s) && Enabled(s, l)
    ensures EntryOk(c, Apply(c, s, l))
    ensures Directory.Sha(s.entry) != "" ==> Directory.Sha(Apply(c, s, l).entry) != ""
  {
    var s' := Apply(c, s, l);
    match l
    case BuildEnd(_, _, _) =>
      if Directory.Sha(s.entry) != "" { TracedGrows(c, s.born, s'.born, Directory.Sha(s.entry)); }
    case Land(m, _) =>
      assert MsgOk(c, s.born, Directory.Sha(s.entry) != "", m);
    case _ =>
  }

  lemma NewRequests(c: Config, s: State, l: Label)
    requires GoodHash(c) && Inv(c, s) && Enabled(s, l) && Local(l)
    ensures forall m :: m in Requests(c, s, l) ==> MsgOk(c, s.born, Directory.Sha(s.entry) != "", m)
  {
    assert NodeOk(c, s.born, Directory.Sha(s.entry) != "", s.nodes[l.i]);
  }

  /** What a step adds to the messages and to the log of registrations. */
  lemma NewFacts(c: Config, s: State, l: Label)
    requires GoodHash(c) && Inv(c, s) && Enabled(s, l)
    ensures var s' := Apply(c, s, l);
            && (forall m :: m in s'.sent - s.sent ==> MsgOk(c, s'.born, Directory.Sha(s'.entry) != "", m))
            && (forall r :: r in s'.registered - s.registered ==> Traced(c, s'.born, r.1))
  {
    var s' := Apply(c, s, l);
    if l.Land? {
      assert MsgOk(c, s.born, Directory.Sha(s.entry) != "", l.m);
      assert NodeOk(c, s.born, Directory.Sha(s.entry) != "", s.nodes[l.m.sender]);
    } else if Local(l) {
      EntryKept(c, s, l);
      NewRequests(c, s, l);
      forall m | m in s'.sent - s.sent
        ensures MsgOk(c, s'.born, Directory.Sha(s'.entry) != "", m)
      {
        MsgOkGrows(c, s.born, Directory.Sha(s.entry) != "", s'.born, Directory.Sha(s'.entry) != "", m);
      }
    }
  }

  lemma OwnArchiveKept(c: Config, s: State, l: Label, i: Endpoint)
    requires Enabled(s, l) && i in s.nodes && OwnArchive(s.nodes[i])
    ensures i in Apply(c, s, l).nodes && OwnArchive(Apply(c, s, l).nodes[i])
  {
  }

  /** A peer joins only behind a digest. */
  lemma NobodyJoinsUnrecorded(c: Config, s: State, l: Label)
    requires GoodHash(c) && Inv(c, s) && Enabled(s, l) && Directory.Sha(Apply(c, s, l).entry) == ""
    ensures Directory.Sha(s.entry) == "" && Apply(c, s, l).entry.peers <= s.entry.peers
  {
    EntryKept(c, s, l);
    if l.Land? {
      assert MsgOk(c, s.born, Directory.Sha(s.entry) != "", l.m);
    }
  }

  lemma ShelterKept(c: Config, s: State, l: Label, i: Endpoint)
    requires GoodHash(c) && Inv(c, s) && Enabled(s, l) && i in s.nodes
    ensures i in Apply(c, s, l).nodes && Sheltered(Apply(c, s, l), i)
  {
    OthersKept(c, s, l);
    var s' := Apply(c, s, l);
    hide Apply, Enabled, NodeOk, MsgOk, EntryOk, OwnArchive;
    assert Sheltered(s, i);
    if Directory.Sha(s'.entry) == "" && s'.entry.peers - {i} != {} {
      NobodyJoinsUnrecorded(c, s, l);
      var j :| j in s'.entry.peers - {i};
      assert j in s.entry.peers - {i};
      OwnArchiveKept(c, s, l, i);
    }
  }

  lemma RecordKept(c: Config, s: State, l: Label)
    requires GoodHash(c) && Inv(c, s) && Enabled(s, l) && Recorded(s)
    ensures Recorded(Apply(c, s, l))
  {
    hide Apply, Inv;
    if Directory.Sha(Apply(c, s, l).entry) == "" {
      NobodyJoinsUnrecorded(c, s, l);
    }
  }

  lemma NodesStep(c: Config, s: State, l: Label)
    requires GoodHash(c) && Inv(c, s) && Enabled(s, l) && Clean(s, l)
    ensures var s' := Apply(c, s, l);
            forall j :: j in s'.nodes ==>
              NodeOk(c, s'.born, Directory.Sha(s'.entry) != "", s'.nodes[j]) && Sheltered(s', j)
  {
    var s' := Apply(c, s, l);
    var known, known' := Directory.Sha(s.entry) != "", Directory.Sha(s'.entry) != "";
    OthersKept(c, s, l);
    EntryKept(c, s, l);
    hide Apply, NodeOk, Sheltered;
    forall j | j in s'.nodes
      ensures NodeOk(c, s'.born, known', s'.nodes[j]) && Sheltered(s', j)
    {
      ShelterKept(c, s, l, j);
      if Owner(l, j) {
        OwnStep(c, s, l, j);
      } else {
        NodeOkGrows(c, s.born, known, s'.born, known', s.nodes[j]);
      }
    }
  }

  lemma InvStep(c: Config, s: State, l: Label)
    requires GoodHash(c) && Inv(c, s) && Enabled(s, l) && Clean(s, l)
    ensures Inv(c, Apply(c, s, l))
    ensures Recorded(s) ==> Recorded(Apply(c, s, l))
  {
    var s' := Apply(c, s, l);
    var known, known' := Directory.Sha(s.entry) != "", Directory.Sha(s'.entry) != "";
    OthersKept(c, s, l);
    EntryKept(c, s, l);
    NewFacts(c, s, l);
    NodesStep(c, s, l);
    if Recorded(s) {
      RecordKept(c, s, l);
    }
    hide Apply, NodeOk, MsgOk, Sheltered, Recorded, Traced, EntryOk;
    forall m | m in s'.sent
      ensures MsgOk(c, s'.born, known', m)
    {
      if m in s.sent { MsgOkGrows(c, s.born, known, s'.born, known', m); }
    }
    forall r | r in s'.registered
      ensures Traced(c, s'.born, r.1)
    {
      if r in s.registered { TracedGrows(c, s.born, s'.born, r.1); }
    }
  }

  lemma {:induction false} InvRun(c: Config, s: State, ls: seq<Label>)
    requires GoodHash(c) && Inv(c, s) && Valid(c, s, ls) && CleanRun(c, s, ls)
    ensures Inv(c, Exec(c, s, ls))
    ensures Recorded(s) ==> Recorded(Exec(c, s, ls))
    decreases |ls|
  {
    if ls != [] {
      InvStep(c, s, ls[0]);
      InvRun(c, Apply(c, s, ls[0]), ls[1..]);
    }
  }

  lemma {:induction false} CleanPrefix(c: Config, s: State, ls: seq<Label>, k: nat)
    requires Valid(c, s, ls) && CleanRun(c, s, ls) && k <= |ls|
    ensures Valid(c, s, ls[..k]) && CleanRun(c, s, ls[..k])
    ensures Valid(c, Exec(c, s, ls[..k]), ls[k..])
    ensures k < |ls| ==> Enabled(Exec(c, s, ls[..k]), ls[k]) && Clean(Exec(c, s, ls[..k]), ls[k])
    decreases k
  {
    ExecPrefix(c, s, ls, k);
    if k > 0 {
      CleanPrefix(c, Apply(c, s, ls[0]), ls[1..], k - 1);
      assert ls[..k][1..] == ls[1..][..k - 1];
    }
  }

  /** The contents that builds wrote during a run. */
  function Built(ls: seq<Label>): set<Bytes> {
    if ls == [] then {}
    else
      (if ls[0].BuildEnd? && ls[0].output.Some? then {ls[0].output.value} else {}) + Built(ls[1..])
  }

  /** Nothing else is ever counted as born; in particular no pulled body is. */
  lemma {:induction false} BornIsFoundOrBuilt(c: Config, s: State, ls: seq<Label>)
    requires Valid(c, s, ls)
    ensures Exec(c, s, ls).born == s.born + Built(ls)
    decreases |ls|
  {
    if ls != [] {
      BornIsFoundOrBuilt(c, Apply(c, s, ls[0]), ls[1..]);
    }
  }

  /** The stored digest, every digest on its way to the store, and the digest of every registered file are
    * digests of genuine files. */
  ghost predicate DigestsTraced(c: Config, t: State, genuine: set<Bytes>) {
    && (Directory.Sha(t.entry) != "" ==> Traced(c, genuine, Directory.Sha(t.entry)))
    && (forall m :: m in t.sent && m.RecordMsg? ==> Traced(c, genuine, m.sha))
    && (forall r :: r in t.registered ==> Traced(c, genuine, r.1))
  }

  /** Hash lineage: at every point of every clean run, all digests trace back to a file that was built in the
    * run or that a primer had on its disk, or the directory knew, from the start. */
  lemma StoredDigestsAreBorn(c: Config, s: State, ls: seq<Label>, k: nat)
    requires GoodHash(c) && Start(c, s) && !Exposed(s) && Valid(c, s, ls) && CleanRun(c, s, ls) && k <= |ls|
    ensures Valid(c, s, ls[..k])
    ensures DigestsTraced(c, Exec(c, s, ls[..k]), s.born + Built(ls[..k]))
  {
    StartInv(c, s);
    CleanPrefix(c, s, ls, k);
    BornIsFoundOrBuilt(c, s, ls[..k]);
    InvRun(c, s, ls[..k]);
    var t := Exec(c, s, ls[..k]);
    forall m | m in t.sent && m.RecordMsg?
      ensures Traced(c, t.born, m.sha)
    {
      assert MsgOk(c, t.born, Directory.Sha(t.entry) != "", m);
    }
  }

  /** Every pull is verified: a primer never starts a transfer without an expected digest, the one it
    * expects is that of a built file, and a non-empty peer set comes with a stored digest if it did at
    * the start. */
  lemma EveryPullIsVerified(c: Config, s: State, ls: seq<Label>, k: nat)
    requires GoodHash(c) && Start(c, s) && !Exposed(s) && Valid(c, s, ls) && CleanRun(c, s, ls) && k < |ls|
    ensures Valid(c, s, ls[..k])
    ensures var t := Exec(c, s, ls[..k]);
            && Enabled(t, ls[k])
            && (Recorded(s) ==> Recorded(t))
            && (ls[k].BeginPull? ==>
                  var etalon := t.nodes[ls[k].i].pc.etalon; etalon != "" && Traced(c, t.born, etalon))
  {
    StartInv(c, s);
    CleanPrefix(c, s, ls, k);
    InvRun(c, s, ls[..k]);
    var t := Exec(c, s, ls[..k]);
    if ls[k].BeginPull? {
      assert NodeOk(c, t.born, Directory.Sha(t.entry) != "", t.nodes[ls[k].i]);
    }
  }

  /** What a primer offers after a completed registration: its file's digest is a born one. */
  lemma ServedFilesAreBorn(c: Config, s: State, ls: seq<Label>, i: Endpoint)
    requires GoodHash(c) && Start(c, s) && !Exposed(s) && Valid(c, s, ls) && CleanRun(c, s, ls)
    ensures var t := Exec(c, s, ls);
            i in t.nodes && t.nodes[i].pc.Serving? && t.nodes[i].file.Some?
            ==> Traced(c, t.born, c.H(t.nodes[i].file.value))
  {
    StartInv(c, s);
    InvRun(c, s, ls);
  }
}
