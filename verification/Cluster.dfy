/** N primers that compute the same archive key and share one directory entry.
  *
  * A labelled transition system. One label is one directory command, one file operation, one step of a
  * clock or one failure, of one primer; any interleaving is a run. All choices of the environment are
  * in the label, so a run is a list of labels and `Exec` computes where it leads.
  *
  * Lock commands and registrations travel as messages. A message that was sent stays in `sent` for
  * ever and may be executed by the store at any later time, any number of times or not at all: this
  * covers loss, delay, reordering, retries, and requests that outlive the process that sent them.
  */
module Cluster {
  import opened Prelude
  import Lease
  import Directory
  import Peer

  type Endpoint = Lease.Endpoint

  datatype Config = Config(H: Peer.Hash, ttl: int)

  datatype Pc =
    | Down
    | Starting
    | Listing(wait: bool)                       // wait: inside waitForPeer
    | Listed(wait: bool, peers: seq<Endpoint>)
    | Pulling(wait: bool, peers: seq<Endpoint>, etalon: Digest)
    | Transferring(wait: bool, peers: seq<Endpoint>, etalon: Digest, t: Peer.Transfer)
    | Acquiring
    | Building(renewing: bool)
    | Releasing(built: bool)
    | Hashing
    | Registering(sha: Digest)
    | Publishing
    | Serving

  /** `life` counts process starts; `leaseUntil` is when the last grant to this process lapses. */
  datatype Node = Node(pc: Pc, life: nat, file: Peer.File, zone: string, leaseUntil: int)

  datatype Msg =
    | AcquireMsg(sender: Endpoint, life: nat)
    | RenewMsg(sender: Endpoint, life: nat)
    | ReleaseMsg(sender: Endpoint, life: nat)
    | RecordMsg(sender: Endpoint, life: nat, sha: Digest)
    | MemberMsg(sender: Endpoint, life: nat)    // pipelined behind the record, executed after it

  /** `born`: every content some primer built, or found on its disk when the run began.
    * `registered`: every registration a primer knows to be complete, with the digest it sent. */
  datatype State = State(
    now: int,
    entry: Directory.Entry,
    nodes: map<Endpoint, Node>,
    sent: set<Msg>,
    born: set<Bytes>,
    registered: set<(Endpoint, Digest)>)

  datatype Label =
    | Tick(d: nat)
    | Boot(i: Endpoint)
    | CheckLocal(i: Endpoint)
    | List(i: Endpoint, reply: seq<Endpoint>, zones: Option<map<Endpoint, string>>)
    | ListError(i: Endpoint)
    | ReadSha(i: Endpoint)
    | ReadShaError(i: Endpoint)
    | BeginPull(i: Endpoint, t: Peer.Transfer)
    | EndPull(i: Endpoint)
    | Exhausted(i: Endpoint)
    | GiveUp(i: Endpoint)
    | AcquireError(i: Endpoint)
    | SendRenew(i: Endpoint)
    | BuildEnd(i: Endpoint, ok: bool, output: Option<Bytes>)
    | ReleaseError(i: Endpoint)
    | HashFile(i: Endpoint)
    | RegisterError(i: Endpoint)
    | Publish(i: Endpoint)
    | Shutdown(i: Endpoint)
    | Crash(i: Endpoint)
    | Land(m: Msg, heard: bool)                 // heard: the reply reaches a sender that waits for it

  ghost predicate Enabled(s: State, l: Label) {
    match l
    case Tick(_) => true
    case Boot(i) => i in s.nodes && s.nodes[i].pc.Down?
    case CheckLocal(i) => i in s.nodes && s.nodes[i].pc.Starting?
    case List(i, reply, _) =>
      i in s.nodes && s.nodes[i].pc.Listing? && Directory.Enumerates(reply, s.entry.peers)
    case ListError(i) => i in s.nodes && s.nodes[i].pc.Listing?
    case ReadSha(i) => i in s.nodes && s.nodes[i].pc.Listed?
    case ReadShaError(i) => i in s.nodes && s.nodes[i].pc.Listed?
    case BeginPull(i, _) => i in s.nodes && s.nodes[i].pc.Pulling? && s.nodes[i].pc.peers != []
    case EndPull(i) => i in s.nodes && s.nodes[i].pc.Transferring?
    case Exhausted(i) => i in s.nodes && s.nodes[i].pc.Pulling? && s.nodes[i].pc.peers == []
    case GiveUp(i) => i in s.nodes && s.nodes[i].pc == Listing(true)
    case AcquireError(i) => i in s.nodes && s.nodes[i].pc.Acquiring?
    case SendRenew(i) => i in s.nodes && s.nodes[i].pc == Building(true)
    case BuildEnd(i, _, _) => i in s.nodes && s.nodes[i].pc.Building?
    case ReleaseError(i) => i in s.nodes && s.nodes[i].pc.Releasing?
    case HashFile(i) => i in s.nodes && s.nodes[i].pc.Hashing?
    case RegisterError(i) => i in s.nodes && s.nodes[i].pc.Registering?
    case Publish(i) => i in s.nodes && s.nodes[i].pc.Publishing?
    case Shutdown(i) => i in s.nodes && s.nodes[i].pc.Serving?
    case Crash(i) => i in s.nodes && !s.nodes[i].pc.Down?
    case Land(m, _) => m in s.sent && m.sender in s.nodes
  }

  /** The labels that are a step of one primer itself. */
  predicate Local(l: Label) {
    !l.Tick? && !l.Land?
  }

  /** The primer after its own step. */
  ghost function Moved(c: Config, s: State, l: Label): Node
    requires Local(l) && Enabled(s, l)
  {
    var n := s.nodes[l.i];
    match l
    case Boot(_) => n.(pc := Starting, life := n.life + 1)
    case CheckLocal(_) => n.(pc := if Peer.Usable(n.file) then Hashing else Listing(false))
    case List(i, reply, zones) => n.(pc := Listed(n.pc.wait, Directory.PeerOrder(reply, i, n.zone, zones)))
    case ListError(_) => n.(pc := if n.pc.wait then Listing(true) else Down)
    case ReadSha(_) => n.(pc := Pulling(n.pc.wait, n.pc.peers, Directory.Sha(s.entry)))
    case ReadShaError(_) => n.(pc := Pulling(n.pc.wait, n.pc.peers, ""))
    case BeginPull(_, t) =>
      if t.Body? then
        n.(file := Some(t.bytes), pc := Transferring(n.pc.wait, n.pc.peers[1..], n.pc.etalon, t))
      else
        n.(pc := Pulling(n.pc.wait, n.pc.peers[1..], n.pc.etalon))
    case EndPull(_) =>
      n.(file := Peer.Settled(c.H, n.file, n.pc.t, n.pc.etalon),
         pc := if Peer.Accepted(c.H, n.pc.t, n.pc.etalon) then Hashing
               else Pulling(n.pc.wait, n.pc.peers, n.pc.etalon))
    case Exhausted(_) => n.(pc := if n.pc.wait then Listing(true) else Acquiring)
    case SendRenew(_) => n
    case BuildEnd(_, ok, output) => n.(file := if output.Some? then output else n.file, pc := Releasing(ok))
    case ReleaseError(_) => n.(pc := if n.pc.built then Hashing else Down)
    case HashFile(_) => n.(pc := if n.file.None? then Down else Registering(c.H(n.file.value)))
    case Publish(_) => n.(pc := Serving)
    case _ => n.(pc := Down)   // GiveUp, AcquireError, RegisterError, Shutdown, Crash
  }

  /** What it sends to the store in that step. */
  ghost function Requests(c: Config, s: State, l: Label): set<Msg>
    requires Local(l) && Enabled(s, l)
  {
    var n := s.nodes[l.i];
    match l
    case Exhausted(i) => if n.pc.wait then {} else {AcquireMsg(i, n.life)}
    case SendRenew(i) => {RenewMsg(i, n.life)}
    case BuildEnd(i, _, _) => {ReleaseMsg(i, n.life)}
    case HashFile(i) => if n.file.None? then {} else {RecordMsg(i, n.life, c.H(n.file.value))}
    case _ => {}
  }

  function Births(l: Label): set<Bytes> {
    if l.BuildEnd? && l.output.Some? then {l.output.value} else {}
  }

  ghost function Apply(c: Config, s: State, l: Label): State
    requires Enabled(s, l)
  {
    if l.Tick? then s.(now := s.now + l.d)
    else if l.Land? then Executed(c, s, l.m, l.heard)
    else
      s.(nodes := s.nodes[l.i := Moved(c, s, l)],
         sent := s.sent + Requests(c, s, l),
         born := s.born + Births(l),
         entry := if l.Shutdown? then Directory.WithoutPeer(s.entry, l.i) else s.entry)
  }

  /** The lock command a message carries. */
  function LockCommand(m: Msg): Option<Lease.Command> {
    match m
    case AcquireMsg(i, _) => Some(Lease.Acquire(i))
    case RenewMsg(i, _) => Some(Lease.Renew(i))
    case ReleaseMsg(i, _) => Some(Lease.Release(i))
    case _ => None
  }

  function EntryAfter(c: Config, s: State, m: Msg): Directory.Entry {
    match m
    case RecordMsg(_, _, sha) => Directory.WithMeta(s.entry, map["sha256" := sha])
    case MemberMsg(i, _) => Directory.WithPeer(s.entry, i)
    case _ => Directory.Locked(s.entry, s.now, c.ttl, LockCommand(m).value)
  }

  /** The sender after the store executed its message. It moves on only when it is still the same
    * process, still waiting, and hears the reply; a renewal counts for the lease even when unheard. */
  function Answered(c: Config, s: State, m: Msg, heard: bool): Node
    requires m.sender in s.nodes
  {
    var n := s.nodes[m.sender];
    var done := LockCommand(m).Some? && Lease.Succeeds(s.entry.lock, s.now, LockCommand(m).value);
    if n.life != m.life then n
    else
      match m
      case AcquireMsg(_, _) =>
        if !heard || !n.pc.Acquiring? then n
        else if done then n.(pc := Building(true), leaseUntil := s.now + c.ttl)
        else n.(pc := Listing(true))
      case RenewMsg(_, _) =>
        if !n.pc.Building? then n
        else if done then n.(leaseUntil := s.now + c.ttl)
        else if heard then n.(pc := Building(false))
        else n
      case ReleaseMsg(_, _) =>
        if !heard || !n.pc.Releasing? then n else n.(pc := if n.pc.built then Hashing else Down)
      case RecordMsg(_, _, _) => n
      case MemberMsg(_, _) => if Completes(s, m, heard) then n.(pc := Publishing) else n
  }

  /** The sender learns that its whole registration went through. */
  predicate Completes(s: State, m: Msg, heard: bool)
    requires m.sender in s.nodes
  {
    var n := s.nodes[m.sender];
    m.MemberMsg? && heard && n.life == m.life && n.pc.Registering?
  }

  function Executed(c: Config, s: State, m: Msg, heard: bool): State
    requires m.sender in s.nodes
  {
    s.(entry := EntryAfter(c, s, m),
       nodes := s.nodes[m.sender := Answered(c, s, m, heard)],
       sent := s.sent + (if m.RecordMsg? then {MemberMsg(m.sender, m.life)} else {}),
       registered := s.registered +
                     (if Completes(s, m, heard) then {(m.sender, s.nodes[m.sender].pc.sha)} else {}))
  }

  // ---------------------------------------------------------------- runs

  ghost predicate Valid(c: Config, s: State, ls: seq<Label>)
    decreases |ls|
  {
    ls != [] ==> Enabled(s, ls[0]) && Valid(c, Apply(c, s, ls[0]), ls[1..])
  }

  ghost function Exec(c: Config, s: State, ls: seq<Label>): State
    requires Valid(c, s, ls)
    decreases |ls|
  {
    if ls == [] then s else Exec(c, Apply(c, s, ls[0]), ls[1..])
  }

  // ---------------------------------------------------------------- faults

  /** The environment's misbehaviours that some property does not survive. */
  datatype Fault =
    | ShaUnread       // the stored digest could not be read, so the pull goes unchecked
    | KilledMidPull   // the process dies while a body is being written
    | NotRemoved      // a rejected body could not be removed
    | StaleRelease    // a release of an earlier process lands while the same endpoint builds again

  ghost function Faults(s: State, l: Label): set<Fault>
    requires Enabled(s, l)
  {
    match l
    case ReadShaError(_) => {ShaUnread}
    case Crash(i) => if s.nodes[i].pc.Transferring? then {KilledMidPull} else {}
    case BeginPull(_, t) => if t.Body? && !t.removable then {NotRemoved} else {}
    case Land(ReleaseMsg(i, life), _) =>
      if s.nodes[i].pc.Building? && s.nodes[i].life != life then {StaleRelease} else {}
    case _ => {}
  }

  ghost function RunFaults(c: Config, s: State, ls: seq<Label>): set<Fault>
    requires Valid(c, s, ls)
    decreases |ls|
  {
    if ls == [] then {} else Faults(s, ls[0]) + RunFaults(c, Apply(c, s, ls[0]), ls[1..])
  }

  /** A run from `s` to `t` with exactly these faults. */
  ghost predicate Path(c: Config, s: State, ls: seq<Label>, t: State, faults: set<Fault>) {
    Valid(c, s, ls) && Exec(c, s, ls) == t && RunFaults(c, s, ls) == faults
  }

  lemma {:induction false} PathConcat(
    c: Config, s: State, a: seq<Label>, t: State, fa: set<Fault>, b: seq<Label>, u: State, fb: set<Fault>)
    requires Path(c, s, a, t, fa) && Path(c, t, b, u, fb)
    ensures Path(c, s, a + b, u, fa + fb)
    decreases |a|
  {
    if a == [] {
      assert a + b == b;
      assert fa + fb == fb;
    } else {
      var s1 := Apply(c, s, a[0]);
      assert (a + b)[1..] == a[1..] + b;
      PathConcat(c, s1, a[1..], t, RunFaults(c, s1, a[1..]), b, u, fb);
      assert RunFaults(c, s, a + b) == Faults(s, a[0]) + (RunFaults(c, s1, a[1..]) + fb);
    }
  }

  lemma {:induction false} ExecConcat(c: Config, s: State, a: seq<Label>, b: seq<Label>)
    requires Valid(c, s, a) && Valid(c, Exec(c, s, a), b)
    ensures Valid(c, s, a + b) && Exec(c, s, a + b) == Exec(c, Exec(c, s, a), b)
    decreases |a|
  {
    if a == [] {
      assert a + b == b;
    } else {
      assert (a + b)[1..] == a[1..] + b;
      ExecConcat(c, Apply(c, s, a[0]), a[1..], b);
    }
  }

  lemma {:induction false} ExecPrefix(c: Config, s: State, ls: seq<Label>, k: nat)
    requires Valid(c, s, ls) && k <= |ls|
    ensures Valid(c, s, ls[..k])
    ensures Valid(c, Exec(c, s, ls[..k]), ls[k..])
    ensures Exec(c, s, ls) == Exec(c, Exec(c, s, ls[..k]), ls[k..])
    decreases k
  {
    if k > 0 {
      assert ls[1..][..k - 1] == ls[..k][1..];
      assert ls[1..][k - 1..] == ls[k..];
      ExecPrefix(c, Apply(c, s, ls[0]), ls[1..], k - 1);
    } else {
      assert ls[0..] == ls;
    }
  }
}
