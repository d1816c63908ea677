/** Primers, operator and webhook together.
  *
  * One protocol state per archive key, the history of the ClassCache object, the history of the workload's
  * template, the pods admitted so far, the reconciles under way and the status patches in flight. Reads may
  * be of any earlier version; a patch that was sent may land at any later time and any number of times.
  */
module Platform {
  import opened Prelude
  import opened MergePatch
  import opened Workload
  import opened Operator
  import C = Cluster
  import Registration
  import Lease

  /** A reconcile in progress; `patched`: the workload step is behind it. */
  datatype Work = Work(copy: Copy, patched: bool)

  datatype State = State(
    clusters: map<string, C.State>,
    objects: seq<ClassCache>,
    templates: seq<Template>,
    pods: seq<Template>,
    works: map<nat, Work>,
    patches: set<string>)

  datatype Step =
    | Primer(key: string, l: C.Label)
    | PatchLands(key: string)
    | EditSpec(spec: Spec)
    | Read(r: nat, version: nat)
    | PatchWorkload(r: nat, version: nat)
    | Fail(r: nat, why: string)
    | Done(r: nat, observed: (string, nat))
    | Deploy(t: Template)
    | Admit(t: Template, version: nat)

  function Latest<T>(s: seq<T>): T
    requires s != []
  {
    s[|s| - 1]
  }

  function Current(s: State): Server
    requires s.objects != []
  {
    Server(Latest(s.objects), |s.objects| - 1)
  }

  /** The history after the server moved to `next`. */
  function Follow(objects: seq<ClassCache>, next: Server): seq<ClassCache> {
    if next.version == |objects| then objects + [next.obj] else objects
  }

  function CopyOf(objects: seq<ClassCache>, version: nat): Copy
    requires version < |objects|
  {
    Copy(objects[version].(spec := Defaulted(objects[version].spec)), version)
  }

  /** Users may write any template; a container under our init name can only be one taken over from
    * an earlier template. */
  ghost predicate BringsNoScript(s: State, t: Template) {
    forall c :: c in t.inits && c.name == INIT_NAME ==>
      exists u :: u in s.templates && c in u.inits
  }

  ghost predicate Enabled(s: State, step: Step) {
    && s.objects != []
    && match step
       case Primer(key, l) => key in s.clusters && C.Enabled(s.clusters[key], l)
       case PatchLands(key) => key in s.patches
       case EditSpec(_) => true
       case Read(_, v) => v < |s.objects|
       case PatchWorkload(r, v) =>
         && r in s.works && !s.works[r].patched && PatchesWorkload(s.works[r].copy.obj)
         && s.works[r].copy.obj.spec.refKind == "Deployment"
         && (s.templates != [] ==> v < |s.templates|)
       case Fail(r, _) => r in s.works
       case Done(r, _) => r in s.works && (PatchesWorkload(s.works[r].copy.obj) ==> s.works[r].patched)
       case Deploy(t) => BringsNoScript(s, t)
       case Admit(t, v) => BringsNoScript(s, t) && v < |s.objects|
  }

  /** The templates after the workload step of a reconcile that read version `v`, and whether it went well:
    * an update from an outdated version is refused. */
  function WorkloadStep(templates: seq<Template>, v: nat, p: PatchSpec): (seq<Template>, bool)
    requires templates != [] ==> v < |templates|
  {
    if templates == [] || Patched(templates[v], p) == templates[v] then (templates, true)
    else if v != |templates| - 1 then (templates, false)
    else (templates + [Patched(templates[v], p)], true)
  }

  ghost function Apply(conf: C.Config, s: State, step: Step): State
    requires Enabled(s, step)
  {
    match step
    case Primer(key, l) =>
      s.(clusters := s.clusters[key := C.Apply(conf, s.clusters[key], l)],
         patches := if l.Publish? then s.patches + {key} else s.patches)
    case PatchLands(key) => s.(objects := Follow(s.objects, KeyPatched(Current(s), key)))
    case EditSpec(spec) => s.(objects := s.objects + [Latest(s.objects).(spec := spec)])
    case Read(r, v) => s.(works := s.works[r := Work(CopyOf(s.objects, v), false)])
    case PatchWorkload(r, v) =>
      var w := s.works[r];
      var (templates, ok) := WorkloadStep(s.templates, v, SpecFor(w.copy.obj));
      s.(templates := templates, works := s.works[r := w.(patched := ok)])
    case Fail(r, why) =>
      var copy := s.works[r].copy;
      s.(objects := Follow(s.objects, StatusWritten(Current(s), copy.version, FailedStatus(copy.obj.status, why))),
         works := s.works - {r})
    case Done(r, observed) =>
      var copy := s.works[r].copy;
      s.(objects := Follow(s.objects, StatusWritten(Current(s), copy.version, DoneStatus(copy.obj.status, observed))),
         works := s.works - {r})
    case Deploy(t) => s.(templates := s.templates + [t])
    case Admit(t, v) =>
      var cc := s.objects[v];
      var injects := cc.spec.patchMode == "Webhook" && cc.status.key != "";
      s.(pods := s.pods + [if injects then Patched(t, WebhookSpec(cc)) else t])
  }

  ghost predicate Valid(conf: C.Config, s: State, steps: seq<Step>)
    decreases |steps|
  {
    steps != [] ==> Enabled(s, steps[0]) && Valid(conf, Apply(conf, s, steps[0]), steps[1..])
  }

  ghost function Exec(conf: C.Config, s: State, steps: seq<Step>): State
    requires Valid(conf, s, steps)
    decreases |steps|
  {
    if steps == [] then s else Exec(conf, Apply(conf, s, steps[0]), steps[1..])
  }

  // ---------------------------------------------------------------- no lost key

  /** The key of the most recent patch that landed, or `first` when none did. */
  function LastPatch(steps: seq<Step>, first: string): string {
    if steps == [] then first
    else LastPatch(steps[1..], if steps[0].PatchLands? then steps[0].key else first)
  }

  /** Every reconcile works from a status that was current at some version. */
  ghost predicate CopiesAreReads(s: State) {
    forall r :: r in s.works ==>
      && s.works[r].copy.version < |s.objects|
      && s.works[r].copy.obj.status == s.objects[s.works[r].copy.version].status
  }

  lemma CopiesStayReads(conf: C.Config, s: State, step: Step)
    requires Enabled(s, step) && CopiesAreReads(s)
    ensures Apply(conf, s, step).objects != [] && s.objects <= Apply(conf, s, step).objects
    ensures CopiesAreReads(Apply(conf, s, step))
  {
  }

  lemma KeyStep(conf: C.Config, s: State, step: Step)
    requires Enabled(s, step) && CopiesAreReads(s)
    ensures Apply(conf, s, step).objects != []
    ensures Latest(Apply(conf, s, step).objects).status.key ==
            if step.PatchLands? then step.key else Latest(s.objects).status.key
  {
  }

  /** No lost key: in every interleaving of reconciles working from stale copies, failures, spec edits and
    * primer patches, the key in the status is that of the most recent patch. */
  lemma {:induction false} TheKeyIsTheLastPatch(conf: C.Config, s: State, steps: seq<Step>)
    requires s.objects != [] && CopiesAreReads(s) && Valid(conf, s, steps)
    ensures Exec(conf, s, steps).objects != []
    ensures Latest(Exec(conf, s, steps).objects).status.key == LastPatch(steps, Latest(s.objects).status.key)
    decreases |steps|
  {
    if steps != [] {
      CopiesStayReads(conf, s, steps[0]);
      KeyStep(conf, s, steps[0]);
      TheKeyIsTheLastPatch(conf, Apply(conf, s, steps[0]), steps[1..]);
    }
  }

  /** And the patch is as careful the other way: whatever the operator reported last stays. */
  lemma {:induction false} PatchesKeepTheReport(conf: C.Config, s: State, steps: seq<Step>)
    requires s.objects != [] && Valid(conf, s, steps)
    requires forall k :: 0 <= k < |steps| ==> steps[k].PatchLands? || steps[k].Primer?
    ensures Exec(conf, s, steps).objects != []
    ensures var a, b := Latest(s.objects).status, Latest(Exec(conf, s, steps).objects).status;
            a.(key := "") == b.(key := "")
    decreases |steps|
  {
    if steps != [] {
      PatchesKeepTheReport(conf, Apply(conf, s, steps[0]), steps[1..]);
    }
  }

  /** A reconcile that nobody disturbs: with a published key and the workload in place, three steps
    * later the newest template is the patched one and the report is the new one, with the key kept. */
  lemma AnUndisturbedReconcilePatches(conf: C.Config, s: State, r: nat, observed: (string, nat))
    returns (steps: seq<Step>)
    requires s.objects != [] && s.templates != []
    requires PatchesWorkload(CopyOf(s.objects, |s.objects| - 1).obj)
    requires CopyOf(s.objects, |s.objects| - 1).obj.spec.refKind == "Deployment"
    ensures Valid(conf, s, steps)
    ensures var e, st := Exec(conf, s, steps), Latest(s.objects).status;
            && e.templates != [] && e.objects != [] && e.clusters == s.clusters
            && Latest(e.templates) == Patched(Latest(s.templates), SpecFor(CopyOf(s.objects, |s.objects| - 1).obj))
            && Latest(e.objects) == Latest(s.objects).(status := DoneStatus(st, observed))
  {
    hide Patched;
    var v, w := |s.objects| - 1, |s.templates| - 1;
    var a, b, d := Read(r, v), PatchWorkload(r, w), Done(r, observed);
    var copy := CopyOf(s.objects, v);
    var (ts, ok) := WorkloadStep(s.templates, w, SpecFor(copy.obj));
    var s1 := Apply(conf, s, a);
    assert s1 == s.(works := s.works[r := Work(copy, false)]);
    var s2 := Apply(conf, s1, b);
    assert ok && s2 == s1.(templates := ts, works := s1.works[r := Work(copy, true)]);
    steps := [a, b, d];
    ThreeSteps(conf, s, a, b, d);
  }

  lemma ThreeSteps(conf: C.Config, s: State, a: Step, b: Step, d: Step)
    requires Enabled(s, a) && Enabled(Apply(conf, s, a), b) && Enabled(Apply(conf, Apply(conf, s, a), b), d)
    ensures Valid(conf, s, [a, b, d])
    ensures Exec(conf, s, [a, b, d]) == Apply(conf, Apply(conf, Apply(conf, s, a), b), d)
  {
    hide Apply, Enabled;
    var s1 := Apply(conf, s, a);
    var s2 := Apply(conf, s1, b);
    var s3 := Apply(conf, s2, d);
    assert [a, b, d][1..] == [b, d] && [b, d][1..] == [d] && [d][1..] == [];
    assert Valid(conf, s3, []) && Exec(conf, s3, []) == s3;
    assert Valid(conf, s2, [d]) && Exec(conf, s2, [d]) == s3;
    assert Valid(conf, s1, [b, d]) && Exec(conf, s1, [b, d]) == s3;
  }

  // ---------------------------------------------------------------- gating

  ghost predicate Registered(s: State, key: string) {
    key != "" && key in s.clusters && s.clusters[key].registered != {}
  }

  /** A primer publishes only after a completed registration of the file it had. */
  ghost predicate PublishersRegistered(cs: C.State) {
    forall i :: i in cs.nodes && cs.nodes[i].pc.Publishing? ==> cs.registered != {}
  }

  lemma PublishersStayRegistered(conf: C.Config, cs: C.State, l: C.Label)
    requires C.Enabled(cs, l) && PublishersRegistered(cs)
    ensures PublishersRegistered(C.Apply(conf, cs, l))
    ensures cs.registered <= C.Apply(conf, cs, l).registered
    ensures l.Publish? ==> cs.registered != {}
  {
  }

  /** The init container waits for the archive of a registered key. */
  ghost predicate WaitsForRegistered(s: State, c: Container) {
    exists p: PatchSpec :: Registered(s, p.key) && c.command == OurInit(p).command
  }

  ghost predicate Gated(s: State, t: Template) {
    forall c :: c in t.inits && c.name == INIT_NAME ==> WaitsForRegistered(s, c)
  }

  ghost predicate KeysOk(s: State) {
    && "" !in s.clusters
    && (forall key :: key in s.clusters ==> PublishersRegistered(s.clusters[key]))
    && (forall key :: key in s.patches ==> Registered(s, key))
    && (forall o :: o in s.objects ==> o.status.key == "" || Registered(s, o.status.key))
    && (forall r :: r in s.works ==>
          s.works[r].copy.obj.status.key == "" || Registered(s, s.works[r].copy.obj.status.key))
  }

  ghost predicate TemplatesOk(s: State) {
    && (forall t :: t in s.templates ==> Gated(s, t))
    && (forall t :: t in s.pods ==> Gated(s, t))
  }

  /** A fresh installation: primers down, nothing registered, published or in flight, no template or pod of ours. */
  ghost predicate Init(s: State) {
    && s.objects != [] && (forall o :: o in s.objects ==> o.status.key == "")
    && "" !in s.clusters
    && (forall key :: key in s.clusters ==> Registration.Quiet(s.clusters[key]))
    && s.works == map[] && s.patches == {}
    && (forall t, c :: (t in s.templates || t in s.pods) && c in t.inits ==> c.name != INIT_NAME)
  }

  lemma RegisteredGrows(conf: C.Config, s: State, step: Step, key: string)
    requires Enabled(s, step) && KeysOk(s) && Registered(s, key)
    ensures Registered(Apply(conf, s, step), key)
  {
    if step.Primer? { PublishersStayRegistered(conf, s.clusters[step.key], step.l); }
  }

  lemma KeysStep(conf: C.Config, s: State, step: Step)
    requires Enabled(s, step) && KeysOk(s)
    ensures KeysOk(Apply(conf, s, step))
  {
    var s' := Apply(conf, s, step);
    forall key | Registered(s, key)
      ensures Registered(s', key)
    {
      RegisteredGrows(conf, s, step, key);
    }
    if step.Primer? {
      PublishersStayRegistered(conf, s.clusters[step.key], step.l);
    }
  }

  lemma PatchedIsGated(s: State, t: Template, p: PatchSpec)
    requires Gated(s, t) && Registered(s, p.key)
    ensures Gated(s, Patched(t, p))
  {
    var u := Patched(t, p);
    assert WaitsForRegistered(s, OurInit(p));
    forall c | c in u.inits && c.name == INIT_NAME
      ensures WaitsForRegistered(s, c)
    {
      assert c == OurInit(p) || c in t.inits;
    }
  }

  lemma BroughtIsGated(s: State, t: Template)
    requires TemplatesOk(s) && BringsNoScript(s, t)
    ensures Gated(s, t)
  {
    forall c | c in t.inits && c.name == INIT_NAME
      ensures WaitsForRegistered(s, c)
    {
      var u :| u in s.templates && c in u.inits;
      assert Gated(s, u);
    }
  }

  lemma GatedGrows(conf: C.Config, s: State, step: Step, t: Template)
    requires Enabled(s, step) && KeysOk(s) && Gated(s, t)
    ensures Gated(Apply(conf, s, step), t)
  {
    forall c | c in t.inits && c.name == INIT_NAME
      ensures WaitsForRegistered(Apply(conf, s, step), c)
    {
      var p: PatchSpec :| Registered(s, p.key) && c.command == OurInit(p).command;
      RegisteredGrows(conf, s, step, p.key);
    }
  }

  /** What a step adds to the templates and pods is gated already. */
  lemma NewTemplatesGated(conf: C.Config, s: State, step: Step, t: Template)
    requires Enabled(s, step) && KeysOk(s) && TemplatesOk(s)
    requires t in Apply(conf, s, step).templates || t in Apply(conf, s, step).pods
    ensures Gated(s, t)
  {
    hide C.Apply, C.Enabled, Patched, Gated, KeyPatched, StatusWritten;
    match step
    case PatchWorkload(r, v) =>
      if s.templates != [] {
        assert s.templates[v] in s.templates;
        PatchedIsGated(s, s.templates[v], SpecFor(s.works[r].copy.obj));
      }
    case Deploy(u) => BroughtIsGated(s, u);
    case Admit(u, v) =>
      BroughtIsGated(s, u);
      assert s.objects[v] in s.objects;
      if s.objects[v].status.key != "" { PatchedIsGated(s, u, WebhookSpec(s.objects[v])); }
    case _ =>
  }

  lemma TemplatesStep(conf: C.Config, s: State, step: Step)
    requires Enabled(s, step) && KeysOk(s) && TemplatesOk(s)
    ensures TemplatesOk(Apply(conf, s, step))
  {
    var s' := Apply(conf, s, step);
    forall t | t in s'.templates || t in s'.pods
      ensures Gated(s', t)
    {
      NewTemplatesGated(conf, s, step, t);
      GatedGrows(conf, s, step, t);
    }
  }

  lemma {:induction false} GatingRun(conf: C.Config, s: State, steps: seq<Step>)
    requires Valid(conf, s, steps) && KeysOk(s) && TemplatesOk(s)
    ensures KeysOk(Exec(conf, s, steps)) && TemplatesOk(Exec(conf, s, steps))
    decreases |steps|
  {
    if steps != [] {
      KeysStep(conf, s, steps[0]);
      TemplatesStep(conf, s, steps[0]);
      GatingRun(conf, Apply(conf, s, steps[0]), steps[1..]);
    }
  }

  /** The steps of one archive's primers. */
  function LabelsOf(steps: seq<Step>, key: string): seq<C.Label> {
    if steps == [] then []
    else (if steps[0].Primer? && steps[0].key == key then [steps[0].l] else []) + LabelsOf(steps[1..], key)
  }

  lemma ClustersStep(conf: C.Config, s: State, step: Step, key: string)
    requires Enabled(s, step)
    ensures Apply(conf, s, step).clusters.Keys == s.clusters.Keys
    ensures key in s.clusters && step.Primer? && step.key == key ==>
              && C.Enabled(s.clusters[key], step.l)
              && Apply(conf, s, step).clusters[key] == C.Apply(conf, s.clusters[key], step.l)
    ensures key in s.clusters && !(step.Primer? && step.key == key) ==>
              Apply(conf, s, step).clusters[key] == s.clusters[key]
  {
    hide C.Apply, C.Enabled;
  }

  /** Inside the platform every archive's primers make a run of module Cluster, so its theorems hold of them. */
  lemma {:induction false} PrimersRunAsInCluster(conf: C.Config, s: State, steps: seq<Step>, key: string)
    requires Valid(conf, s, steps)
    ensures Exec(conf, s, steps).clusters.Keys == s.clusters.Keys
    ensures key in s.clusters ==>
              && C.Valid(conf, s.clusters[key], LabelsOf(steps, key))
              && Exec(conf, s, steps).clusters[key] == C.Exec(conf, s.clusters[key], LabelsOf(steps, key))
    decreases |steps|
  {
    if steps != [] {
      var s1, rest := Apply(conf, s, steps[0]), LabelsOf(steps[1..], key);
      ClustersStep(conf, s, steps[0], key);
      hide C.Apply, C.Enabled, Apply, Enabled;
      PrimersRunAsInCluster(conf, s1, steps[1..], key);
      if steps[0].Primer? && steps[0].key == key {
        assert LabelsOf(steps, key)[0] == steps[0].l && LabelsOf(steps, key)[1..] == rest;
      } else {
        assert LabelsOf(steps, key) == rest;
      }
    }
  }

  /** End-to-end gating: in every run, whatever template or pod carries our init container, its script waits for the
    * archive of a non-empty key, and for that key the directory has executed the record and the membership that
    * some primer sent for an archive file it had. */
  lemma NobodyWaitsForAnUnregisteredArchive(conf: C.Config, s: State, steps: seq<Step>, t: Template, c: Container)
    returns (p: PatchSpec, who: Lease.Endpoint, sha: Digest, k: nat, life: nat)
    requires Init(s) && Valid(conf, s, steps)
    requires t in Exec(conf, s, steps).templates || t in Exec(conf, s, steps).pods
    requires c in t.inits && c.name == INIT_NAME
    ensures c.command == ["sh", "-c", WaitScript(p)] && p.key != "" && p.key in s.clusters
    ensures Registration.ReallyRegistered(conf, s.clusters[p.key], {}, LabelsOf(steps, p.key), k, life, who, sha)
  {
    forall u | u in s.templates || u in s.pods
      ensures Gated(s, u)
    {
    }
    GatingRun(conf, s, steps);
    var e := Exec(conf, s, steps);
    assert Gated(e, t);
    p :| Registered(e, p.key) && c.command == OurInit(p).command;
    var entry :| entry in e.clusters[p.key].registered;
    PrimersRunAsInCluster(conf, s, steps, p.key);
    k, life := Registration.CompleteRegistrationsAreReal(conf, s.clusters[p.key], LabelsOf(steps, p.key), entry);
    who, sha := entry.0, entry.1;
  }
}
