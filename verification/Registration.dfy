/** What a completed registration means: the directory has executed the record and the membership that one process
  * sent for the file it had.
  */
module Registration {
  import opened Prelude
  import opened Cluster
  import Lineage

  type Endpoint = Cluster.Endpoint

  /** The message the store executes in a step, if any. */
  function Landed(l: Label): set<Msg> { if l.Land? then {l.m} else {} }

  /** The messages the store executed in a run. */
  function Landings(ls: seq<Label>): set<Msg> {
    if ls == [] then {} else Landed(ls[0]) + Landings(ls[1..])
  }

  /** A process sends one record, and never goes back to before it. */
  ghost predicate RecordOk(s: State, m: Msg)
    requires m.RecordMsg?
  {
    && m.sender in s.nodes
    && m.life <= s.nodes[m.sender].life
    && (m.life == s.nodes[m.sender].life ==>
          var pc := s.nodes[m.sender].pc;
          pc == Registering(m.sha) || pc.Publishing? || pc.Serving? || pc.Down?)
  }

  /** A process that registers still has the file whose digest it sent. */
  ghost predicate RegisteringOk(c: Config, s: State, i: Endpoint)
    requires i in s.nodes
  {
    var n := s.nodes[i];
    n.pc.Registering? ==>
      && n.file.Some? && c.H(n.file.value) == n.pc.sha
      && RecordMsg(i, n.life, n.pc.sha) in s.sent
  }

  /** The membership is only asked for behind an executed record. */
  ghost predicate MemberOk(m: Msg, done: set<Msg>)
    requires m.MemberMsg?
  {
    exists sha :: RecordMsg(m.sender, m.life, sha) in done
  }

  /** `done`: what the store has executed so far. */
  ghost predicate Inv(c: Config, s: State, done: set<Msg>) {
    && (forall i :: i in s.nodes ==> RegisteringOk(c, s, i))
    && (forall m :: m in s.sent && m.RecordMsg? ==> RecordOk(s, m))
    && (forall m :: m in s.sent && m.MemberMsg? ==> MemberOk(m, done))
    && (forall m :: m in done ==> m in s.sent)
  }

  lemma RegisteringStep(c: Config, s: State, done: set<Msg>, l: Label, i: Endpoint)
    requires Inv(c, s, done) && Enabled(s, l) && i in s.nodes
    ensures i in Apply(c, s, l).nodes && RegisteringOk(c, Apply(c, s, l), i)
  {
    assert RegisteringOk(c, s, i);
  }

  lemma RecordStep(c: Config, s: State, done: set<Msg>, l: Label, m: Msg)
    requires Inv(c, s, done) && Enabled(s, l) && m.RecordMsg? && m in Apply(c, s, l).sent
    ensures RecordOk(Apply(c, s, l), m)
  {
    if m in s.sent {
      assert RecordOk(s, m);
    }
  }

  lemma MemberStep(c: Config, s: State, done: set<Msg>, l: Label, m: Msg)
    requires Inv(c, s, done) && Enabled(s, l) && m.MemberMsg? && m in Apply(c, s, l).sent
    ensures MemberOk(m, done + Landed(l))
  {
    if m in s.sent {
      assert MemberOk(m, done);
    } else {
      assert l.m in Landed(l);
    }
  }

  lemma InvStep(c: Config, s: State, done: set<Msg>, l: Label)
    requires Inv(c, s, done) && Enabled(s, l)
    ensures Inv(c, Apply(c, s, l), done + Landed(l))
  {
    var s' := Apply(c, s, l);
    Lineage.OthersKept(c, s, l);
    forall i | i in s'.nodes
      ensures RegisteringOk(c, s', i)
    {
      RegisteringStep(c, s, done, l, i);
    }
    forall m | m in s'.sent && m.RecordMsg?
      ensures RecordOk(s', m)
    {
      RecordStep(c, s, done, l, m);
    }
    forall m | m in s'.sent && m.MemberMsg?
      ensures MemberOk(m, done + Landed(l))
    {
      MemberStep(c, s, done, l, m);
    }
  }

  /** At step `k` the store executed the membership that process `life` of `who` asked for and heard about; it had
    * executed that process's record with `sha` before, and the process then had a file with this digest. */
  ghost predicate ReallyRegistered(
    c: Config, s: State, done: set<Msg>, ls: seq<Label>, k: nat, life: nat, who: Endpoint, sha: Digest)
  {
    && k < |ls|
    && ls[k] == Land(MemberMsg(who, life), true)
    && RecordMsg(who, life, sha) in done + Landings(ls[..k])
    && Valid(c, s, ls[..k])
    && var t := Exec(c, s, ls[..k]);
       who in t.nodes && t.nodes[who].file.Some? && c.H(t.nodes[who].file.value) == sha
  }

  lemma CompletionMeansExecution(
    c: Config, s: State, done: set<Msg>, ls: seq<Label>, r: (Endpoint, Digest)) returns (life: nat)
    requires Inv(c, s, done) && Valid(c, s, ls) && ls != []
    requires r !in s.registered && r in Apply(c, s, ls[0]).registered
    ensures ReallyRegistered(c, s, done, ls, 0, life, r.0, r.1)
  {
    assert ls[..0] == [];
    var m := ls[0].m;
    life := m.life;
    assert MemberOk(m, done) && RegisteringOk(c, s, m.sender);
    var sha :| RecordMsg(m.sender, m.life, sha) in done;
    assert RecordOk(s, RecordMsg(m.sender, m.life, sha));
  }

  lemma {:induction false} RegistrationsComeFromExecutions(
    c: Config, s: State, done: set<Msg>, ls: seq<Label>, r: (Endpoint, Digest)) returns (k: nat, life: nat)
    requires Inv(c, s, done) && Valid(c, s, ls)
    requires r !in s.registered && r in Exec(c, s, ls).registered
    ensures ReallyRegistered(c, s, done, ls, k, life, r.0, r.1)
    decreases |ls|
  {
    var s1 := Apply(c, s, ls[0]);
    if r in s1.registered {
      k := 0;
      life := CompletionMeansExecution(c, s, done, ls, r);
    } else {
      InvStep(c, s, done, ls[0]);
      k, life := RegistrationsComeFromExecutions(c, s1, done + Landed(ls[0]), ls[1..], r);
      assert ls[..k + 1][1..] == ls[1..][..k];
      assert Landings(ls[..k + 1]) == Landed(ls[0]) + Landings(ls[1..][..k]);
      k := k + 1;
    }
  }

  /** Every registration a primer takes for complete really is: from a start with nothing in flight, in every run. */
  lemma CompleteRegistrationsAreReal(c: Config, s: State, ls: seq<Label>, r: (Endpoint, Digest))
    returns (k: nat, life: nat)
    requires Quiet(s) && Valid(c, s, ls) && r in Exec(c, s, ls).registered
    ensures ReallyRegistered(c, s, {}, ls, k, life, r.0, r.1)
  {
    k, life := RegistrationsComeFromExecutions(c, s, {}, ls, r);
  }

  /** Primers down, nothing in flight, nothing registered. */
  ghost predicate Quiet(s: State) {
    s.sent == {} && s.registered == {} && forall i :: i in s.nodes ==> s.nodes[i].pc.Down?
  }
}
