/** One run of the whole platform, from a fresh installation to a workload that waits for its archive: the situation
  * that the gating theorem of module Platform speaks of does come about.
  */
module EndToEnd {
  import opened Prelude
  import opened MergePatch
  import opened Workload
  import opened Operator
  import opened Platform
  import WorkloadLaws
  import C = Cluster
  import Lease
  import Runs

  // ---------------------------------------------------------------- composing runs

  lemma {:induction false} RunsCompose(conf: C.Config, s: State, a: seq<Step>, b: seq<Step>)
    requires Valid(conf, s, a) && Valid(conf, Exec(conf, s, a), b)
    ensures Valid(conf, s, a + b) && Exec(conf, s, a + b) == Exec(conf, Exec(conf, s, a), b)
    decreases |a|
  {
    hide Apply, Enabled;
    if a == [] {
      assert a + b == b;
    } else {
      assert (a + b)[1..] == a[1..] + b;
      RunsCompose(conf, Apply(conf, s, a[0]), a[1..], b);
    }
  }

  /** A run of one archive's primers as a run of the platform. */
  function Lifted(key: string, ls: seq<C.Label>): seq<Step> {
    seq(|ls|, i requires 0 <= i < |ls| => Primer(key, ls[i]))
  }

  predicate Publishes(ls: seq<C.Label>) { exists k :: 0 <= k < |ls| && ls[k].Publish? }

  lemma {:induction false} PrimersRun(conf: C.Config, s: State, key: string, ls: seq<C.Label>)
    requires s.objects != [] && key in s.clusters && C.Valid(conf, s.clusters[key], ls)
    ensures Valid(conf, s, Lifted(key, ls))
    ensures Exec(conf, s, Lifted(key, ls))
            == s.(clusters := s.clusters[key := C.Exec(conf, s.clusters[key], ls)],
                  patches := s.patches + (if Publishes(ls) then {key} else {}))
    decreases |ls|
  {
    hide C.Apply, C.Enabled;
    if ls == [] {
      assert s.clusters[key := s.clusters[key]] == s.clusters;
    } else {
      var s1 := Apply(conf, s, Primer(key, ls[0]));
      assert Lifted(key, ls)[1..] == Lifted(key, ls[1..]);
      PrimersRun(conf, s1, key, ls[1..]);
      PublishesFirst(ls);
    }
  }

  lemma PublishesFirst(ls: seq<C.Label>)
    requires ls != []
    ensures Publishes(ls) <==> ls[0].Publish? || Publishes(ls[1..])
  {
    if Publishes(ls[1..]) {
      var k :| 0 <= k < |ls[1..]| && ls[1..][k].Publish?;
      assert ls[k + 1].Publish?;
    }
    if Publishes(ls) && !ls[0].Publish? {
      var k :| 0 <= k < |ls| && ls[k].Publish?;
      assert ls[1..][k - 1].Publish?;
    }
  }

  lemma OnlyPublishingServes(conf: C.Config, s: C.State, l: C.Label, i: Lease.Endpoint)
    requires C.Enabled(s, l) && i in s.nodes && !s.nodes[i].pc.Serving? && !l.Publish?
    ensures i in C.Apply(conf, s, l).nodes && !C.Apply(conf, s, l).nodes[i].pc.Serving?
  {
  }

  lemma {:induction false} ServersHavePublished(conf: C.Config, s: C.State, ls: seq<C.Label>, i: Lease.Endpoint)
    requires C.Valid(conf, s, ls) && i in s.nodes && !s.nodes[i].pc.Serving?
    requires i in C.Exec(conf, s, ls).nodes && C.Exec(conf, s, ls).nodes[i].pc.Serving?
    ensures Publishes(ls)
    decreases |ls|
  {
    PublishesFirst(ls);
    if !ls[0].Publish? {
      OnlyPublishingServes(conf, s, ls[0], i);
      ServersHavePublished(conf, C.Apply(conf, s, ls[0]), ls[1..], i);
    }
  }

  // ---------------------------------------------------------------- the run

  /** Two primers of `key`, a workload, and a ClassCache that patches Deployments itself. */
  ghost predicate Installed(s: State, key: string, i: Lease.Endpoint, j: Lease.Endpoint) {
    && Init(s) && key in s.clusters && s.clusters[key] == Runs.Empty(i, j) && s.templates != []
    && var spec := Defaulted(Latest(s.objects).spec);
       spec.patchMode == "Owned" && spec.refKind == "Deployment"
  }

  /** A plain one: a ClassCache with nothing but defaults and an empty template. */
  lemma AnInstallationExists(key: string, i: Lease.Endpoint, j: Lease.Endpoint) returns (s: State)
    requires key != ""
    ensures Installed(s, key, i, j)
  {
    var cc := ClassCache(Spec("", "", "", "", "", "", "", "app"), Status("", "", 0, "", []));
    s := State(map[key := Runs.Empty(i, j)], [cc], [Template([], [], [], "")], [], map[], {});
    assert Latest(s.objects) == cc;
  }

  /** The primers come up, one builds, the other pulls, and the key is on its way to the ClassCache. */
  lemma PrimersPublish(conf: C.Config, s: State, key: string, i: Lease.Endpoint, j: Lease.Endpoint, x: Bytes)
    returns (steps: seq<Step>)
    requires Installed(s, key, i, j) && i != j && 0 < conf.ttl
    ensures Valid(conf, s, steps)
    ensures var e := Exec(conf, s, steps);
            && e.objects == s.objects && e.templates == s.templates && key in e.patches
            && key in e.clusters && e.clusters[key].registered == {(i, conf.H(x)), (j, conf.H(x))}
  {
    var ls, t := Runs.OneBuildsTheOtherPulls(conf, s.clusters[key], i, j, x);
    assert C.Exec(conf, s.clusters[key], ls) == t;
    ServersHavePublished(conf, s.clusters[key], ls, i);
    PrimersRun(conf, s, key, ls);
    steps := Lifted(key, ls);
  }

  /** The patch lands. */
  lemma KeyArrives(conf: C.Config, s: State, key: string) returns (steps: seq<Step>)
    requires s.objects != [] && key in s.patches && Latest(s.objects).status.key != key
    ensures Valid(conf, s, steps)
    ensures var e, cc := Exec(conf, s, steps), Latest(s.objects);
            && e.objects != [] && Latest(e.objects) == cc.(status := cc.status.(key := key))
            && e == s.(objects := e.objects)
  {
    steps := [PatchLands(key)];
    var e := Apply(conf, s, steps[0]);
    assert steps[1..] == [];
    assert Valid(conf, e, []) && Exec(conf, e, []) == e;
  }

  /** From every fresh installation of this kind there is a run after which the newest template of the workload carries
    * our init container, and its script waits for the archive of the key that two primers have registered. */
  lemma AWorkloadComesToWait(conf: C.Config, s: State, key: string, i: Lease.Endpoint, j: Lease.Endpoint, x: Bytes)
    returns (steps: seq<Step>, c: Container)
    requires Installed(s, key, i, j) && i != j && 0 < conf.ttl
    ensures Valid(conf, s, steps)
    ensures var e := Exec(conf, s, steps);
            && e.templates != [] && c in Latest(e.templates).inits && c.name == INIT_NAME
            && c.command == ["sh", "-c", WaitScript(PatchSpec(Defaulted(Latest(s.objects).spec).archiveDir, key))]
            && e.objects != [] && Latest(e.objects).status.key == key
            && key in e.clusters && e.clusters[key].registered == {(i, conf.H(x)), (j, conf.H(x))}
  {
    var cc := Latest(s.objects);
    assert cc in s.objects && key != "";
    var a := PrimersPublish(conf, s, key, i, j, x);
    var s1 := Exec(conf, s, a);
    var b := KeyArrives(conf, s1, key);
    var s2 := Exec(conf, s1, b);
    var published := CopyOf(s2.objects, |s2.objects| - 1).obj;
    assert SpecFor(published) == PatchSpec(Defaulted(cc.spec).archiveDir, key);
    hide Patched, WaitScript, Defaulted;
    var d := AnUndisturbedReconcilePatches(conf, s2, 0, ("WorkloadPatched", 1));
    RunsCompose(conf, s1, b, d);
    RunsCompose(conf, s, a, b + d);
    steps := a + (b + d);
    var t := Patched(Latest(s2.templates), SpecFor(published));
    WorkloadLaws.EverythingNamesTheSameFile(Latest(s2.templates), SpecFor(published));
    c := t.inits[InitAt(t.inits)];
  }
}
