/** The operator's side: the ClassCache object on the API server, one reconcile, and the webhook. */
module Operator {
  import opened Prelude
  import opened MergePatch
  import opened Workload

  datatype Spec = Spec(
    primerImage: string, appJar: string, agentJar: string, archiveDir: string, patchMode: string,
    refVersion: string, refKind: string, refName: string)

  datatype ClassCache = ClassCache(spec: Spec, status: Status)

  function Or(value: string, default: string): string {
    if value == "" then default else value
  }

  const DEFAULT_DIR := "/var/lib/classcache"

  function Defaulted(s: Spec): Spec {
    Spec(Or(s.primerImage, "classcache-primer:v0.9-universal"), Or(s.appJar, "/app.jar"), Or(s.agentJar, "/agent.jar"),
         Or(s.archiveDir, DEFAULT_DIR), Or(s.patchMode, "Owned"),
         Or(s.refVersion, "apps/v1"), Or(s.refKind, "Deployment"), s.refName)
  }

  // ---------------------------------------------------------------- the stored object

  datatype Server = Server(obj: ClassCache, version: nat)

  /** Someone's earlier read. */
  datatype Copy = Copy(obj: ClassCache, version: nat)

  /** Status().Update: the whole status, refused unless the copy is of the current version. A write that
    * changes nothing makes no new version. */
  function StatusWritten(s: Server, base: nat, st: Status): Server {
    if base != s.version || st == s.obj.status then s
    else Server(s.obj.(status := st), s.version + 1)
  }

  /** The merge patch {"status": {"archiveKey": key}}, applied to whatever is current. */
  function KeyPatched(s: Server, key: string): Server {
    if key == s.obj.status.key then s
    else Server(s.obj.(status := s.obj.status.(key := key)), s.version + 1)
  }

  class ApiServer {
    var obj: ClassCache
    var version: nat

    constructor (obj: ClassCache)
      ensures View() == Server(obj, 0)
    {
      this.obj, version := obj, 0;
    }

    function View(): Server
      reads this
    {
      Server(obj, version)
    }

    method UpdateStatus(base: nat, st: Status) returns (ok: bool)
      modifies this
      ensures View() == StatusWritten(old(View()), base, st)
      ensures ok <==> base == old(version)
      ensures if ok then obj == old(obj).(status := st) else obj == old(obj)
      ensures version == old(version) + (if obj == old(obj) then 0 else 1)
    {
      if base != version {
        return false;
      }
      if st != obj.status {
        obj := obj.(status := st);
        version := version + 1;
      }
      return true;
    }

    /** The server's side of a merge patch of the key. */
    method PatchKey(key: string)
      modifies this
      ensures View() == KeyPatched(old(View()), key)
      ensures obj == old(obj).(status := old(obj).status.(key := key))
      ensures version == old(version) + (if obj == old(obj) then 0 else 1)
    {
      if obj.status.key != key {
        obj := obj.(status := obj.status.(key := key));
        version := version + 1;
      }
    }
  }

  /** What comes back for a patch. Without an answer it may have been applied all the same. */
  datatype Reply = NoAnswer(applied: bool) | Answer(code: int)

  class StatusPublisher {
    const api: ApiServer

    constructor (api: ApiServer)
      ensures this.api == api
    {
      this.api := api;
    }
  }

  /** PublishArchiveKey. A primer outside the operator has no publisher; `built`: the request could be made. */
  method PublishArchiveKey(p: StatusPublisher?, key: string, built: bool, reply: Reply) returns (ok: bool)
    modifies if p == null then {} else {p.api}
    ensures ok <==> p == null || (built && reply.Answer? && reply.code < 300)
    ensures p != null ==>
              var applied := built && if reply.Answer? then reply.code < 300 else reply.applied;
              && p.api.View() == (if applied then KeyPatched(old(p.api.View()), key) else old(p.api.View()))
              && p.api.obj == (if applied then old(p.api.obj).(status := old(p.api.obj).status.(key := key))
                               else old(p.api.obj))
  {
    if p == null {
      return true;
    }
    if !built {
      return false;
    }
    if reply.NoAnswer? {
      if reply.applied {
        p.api.PatchKey(key);
      }
      return false;
    }
    if reply.code >= 300 {
      return false;
    }
    p.api.PatchKey(key);
    return true;
  }

  // ---------------------------------------------------------------- the workload

  datatype Deployment = Deployment(
    template: Template, annotations: map<string, string>, labels: map<string, string>, ready: nat, replicas: nat)

  datatype Lookup<+T> = Missing | Broken(why: string) | Found(value: T)

  function SpecFor(cc: ClassCache): PatchSpec {
    PatchSpec(cc.spec.archiveDir, cc.status.key)
  }

  function Stamped(d: Deployment, cc: ClassCache, name: string): Deployment {
    d.(template := Patched(d.template, SpecFor(cc)),
       annotations := d.annotations["classcache.dev/archive-key" := cc.status.key],
       labels := d.labels["classcache.dev/managed-by" := name])
  }

  predicate Changes(d: Deployment, cc: ClassCache) {
    Patched(d.template, SpecFor(cc)) != d.template
  }

  /** Why the workload cannot be reconciled, if so; `write` is the error of the update. */
  function WorkloadError(cc: ClassCache, d: Lookup<Deployment>, write: Option<string>): Option<string> {
    if cc.spec.refKind != "Deployment" then
      Some("only Deployment workloadRef is supported in v0.7 (got " + cc.spec.refKind + ")")
    else match d
      case Missing => None
      case Broken(why) => Some("get workload " + cc.spec.refName + ": " + why)
      case Found(x) => if Changes(x, cc) then write else None
  }

  /** The workload afterwards: rewritten as a whole, or left as it was. */
  function WorkloadAfter(
    cc: ClassCache, d: Lookup<Deployment>, write: Option<string>, name: string): Lookup<Deployment>
  {
    if d.Found? && Changes(d.value, cc) && WorkloadError(cc, d, write).None? then Found(Stamped(d.value, cc, name))
    else d
  }

  class Workloads {
    var deployment: Lookup<Deployment>

    constructor (d: Lookup<Deployment>)
      ensures deployment == d
    {
      deployment := d;
    }

    method ReconcileWorkload(cc: ClassCache, name: string, write: Option<string>) returns (r: Option<string>)
      modifies this
      ensures r == WorkloadError(cc, old(deployment), write)
      ensures deployment == WorkloadAfter(cc, old(deployment), write, name)
      // no error means: a Deployment is asked for, and there is none yet, or it fits, or it could be written
      ensures var was := old(deployment);
              r.None? <==> cc.spec.refKind == "Deployment"
                           && (was.Missing?
                               || (was.Found?
                                   && (write.None?
                                       || Patched(was.value.template, PatchSpec(cc.spec.archiveDir, cc.status.key))
                                          == was.value.template)))
      // and then it fits; otherwise nothing has changed
      ensures r.None? && old(deployment).Found? ==>
                var was, spec := old(deployment).value, PatchSpec(cc.spec.archiveDir, cc.status.key);
                && deployment.Found?
                && deployment.value.template == Patched(was.template, spec)
                && (deployment.value == was
                    || (&& deployment.value.annotations
                           == was.annotations["classcache.dev/archive-key" := cc.status.key]
                        && deployment.value.labels == was.labels["classcache.dev/managed-by" := name]
                        && deployment.value.ready == was.ready && deployment.value.replicas == was.replicas))
      ensures r.Some? || !old(deployment).Found? ==> deployment == old(deployment)
    {
      hide Patched;
      if cc.spec.refKind != "Deployment" {
        return Some("only Deployment workloadRef is supported in v0.7 (got " + cc.spec.refKind + ")");
      }
      match deployment {
        case Missing =>
          return None;
        case Broken(why) =>
          return Some("get workload " + cc.spec.refName + ": " + why);
        case Found(d) =>
          var pt := new PodTemplate(d.template);
          var changed := pt.ApplyPodPatch(SpecFor(cc));
          if !changed {
            return None;
          }
          if write.Some? {
            return write;
          }
          var annotations := d.annotations["classcache.dev/archive-key" := cc.status.key];
          var labels := d.labels["classcache.dev/managed-by" := name];
          deployment := Found(d.(template := pt.View(), annotations := annotations, labels := labels));
          return None;
      }
    }
  }

  predicate HasInjectedInit(t: Template) {
    InitAt(t.inits) < |t.inits|
  }

  function ObservePhase(ready: Option<nat>, cc: ClassCache, d: Lookup<Deployment>): (string, nat) {
    if ready.None? || ready.value == 0 then ("Pending", 0)
    else if cc.spec.patchMode == "Owned" && d.Found? && HasInjectedInit(d.value.template) then
      if d.value.ready == d.value.replicas && d.value.replicas > 0 then ("Ready", ready.value)
      else ("WorkloadPatched", ready.value)
    else ("PrimerReady", ready.value)
  }

  /** The phases by what they mean; a Deployment counts as ready when it has replicas and all of them are. */
  lemma WhatThePhasesMean(ready: Option<nat>, cc: ClassCache, d: Lookup<Deployment>)
    ensures var (phase, peers) := ObservePhase(ready, cc, d);
            var primed := ready.Some? && ready.value > 0;
            var injected := && cc.spec.patchMode == "Owned" && d.Found?
                            && exists c :: c in d.value.template.inits && c.name == "cc-wait-archive";
            var rolledOut := d.Found? && d.value.ready == d.value.replicas > 0;
            && (phase == "Pending" <==> !primed)
            && (phase == "PrimerReady" <==> primed && !injected)
            && (phase == "WorkloadPatched" <==> primed && injected && !rolledOut)
            && (phase == "Ready" <==> primed && injected && rolledOut)
            && peers == if primed then ready.value else 0
  {
  }

  function FailedStatus(st: Status, why: string): Status {
    st.(phase := "Failed", lastError := why)
  }

  function DoneStatus(st: Status, observed: (string, nat)): Status {
    st.(phase := observed.0, readyPeers := observed.1, lastError := "")
  }

  predicate PatchesWorkload(cc: ClassCache) {
    cc.spec.patchMode == "Owned" && cc.status.key != ""
  }

  /** A copy is an earlier state of the object: if its version is still current, so is its content. */
  ghost predicate Saw(s: Server, c: Copy) {
    c.version <= s.version && (c.version == s.version ==> c.obj == s.obj)
  }

  /** The object a reconcile works on. */
  function Seen(c: Copy): ClassCache {
    c.obj.(spec := Defaulted(c.obj.spec))
  }

  /** The reconcile gets as far as the workload. */
  predicate Reached(cc: ClassCache, infra: Option<string>) {
    infra.None? && PatchesWorkload(cc)
  }

  /** The first error of a reconcile. */
  function Failure(
    cc: ClassCache, infra: Option<string>, d: Lookup<Deployment>, write: Option<string>): Option<string>
  {
    if Reached(cc, infra) then WorkloadError(cc, d, write) else infra
  }

  class Reconciler {
    const api: ApiServer
    const cluster: Workloads
    const name: string

    constructor (api: ApiServer, cluster: Workloads, name: string)
      ensures this.api == api && this.cluster == cluster && this.name == name
    {
      this.api, this.cluster, this.name := api, cluster, name;
    }

    /** `infra`: the first error of the derived objects, if any; `write`: the error of a workload update, if any;
      * `ready`: the primers that are ready. */
    method Reconcile(
      read: Lookup<Copy>, deleting: bool, infra: Option<string>, write: Option<string>, ready: Option<nat>)
      returns (ok: bool)
      requires read.Found? ==> Saw(api.View(), read.value)
      modifies api, cluster
      // the key and the spec survive every outcome
      ensures api.obj.status.key == old(api.obj.status.key) && api.obj.spec == old(api.obj.spec)
      // a stale copy writes no status
      ensures !read.Found? || deleting || read.value.version != old(api.version) ==> api.View() == old(api.View())
      // nothing to do
      ensures !read.Found? || deleting ==>
                cluster.deployment == old(cluster.deployment) && (ok <==> !read.Broken?)
      // otherwise the workload is patched for a published key only, and the status tells how it went
      ensures read.Found? && !deleting ==>
                var cc, was := Seen(read.value), old(cluster.deployment);
                var failed := Failure(cc, infra, was, write);
                && cluster.deployment == (if Reached(cc, infra) then WorkloadAfter(cc, was, write, name) else was)
                && api.View() == StatusWritten(
                     old(api.View()), read.value.version,
                     if failed.Some? then FailedStatus(cc.status, failed.value)
                     else DoneStatus(cc.status, ObservePhase(ready, cc, cluster.deployment)))
                && (ok <==> failed.None? && read.value.version == old(api.version))
      // success means: no error before the workload, and none at it if this mode patches it and there is a key
      ensures read.Found? && !deleting ==>
                var copy, was := read.value.obj, old(cluster.deployment);
                var dir := if copy.spec.archiveDir == "" then "/var/lib/classcache" else copy.spec.archiveDir;
                var spec := PatchSpec(dir, copy.status.key);
                var patches := copy.spec.patchMode in ["", "Owned"] && copy.status.key != "";
                (ok <==> read.value.version == old(api.version) && infra.None?
                         && (patches ==>
                               && copy.spec.refKind in ["", "Deployment"] && !was.Broken?
                               && (was.Found? && Patched(was.value.template, spec) != was.value.template
                                   ==> write.None?)))
                && (ok && patches && was.Found? ==>
                      cluster.deployment.Found?
                      && cluster.deployment.value.template == Patched(was.value.template, spec))
                && (!patches || infra.Some? ==> cluster.deployment == was)
      // the report of a failure
      ensures read.Found? && !deleting && read.value.version == old(api.version) && !ok ==>
                var st := read.value.obj.status;
                && api.obj.status == st.(phase := "Failed", lastError := api.obj.status.lastError)
                && (infra.Some? ==> api.obj.status.lastError == infra.value)
      // the report of a success, from what is there now
      ensures ok && read.Found? && !deleting ==>
                var st, d := api.obj.status, cluster.deployment;
                var primed := ready.Some? && ready.value > 0;
                var injected := && read.value.obj.spec.patchMode in ["", "Owned"] && d.Found?
                                && exists c :: c in d.value.template.inits && c.name == "cc-wait-archive";
                var rolledOut := d.Found? && d.value.ready == d.value.replicas > 0;
                && (st.phase == "Pending" <==> !primed)
                && (st.phase == "PrimerReady" <==> primed && !injected)
                && (st.phase == "WorkloadPatched" <==> primed && injected && !rolledOut)
                && (st.phase == "Ready" <==> primed && injected && rolledOut)
                && st.readyPeers == (if primed then ready.value else 0)
                && st.lastError == ""
                && st == read.value.obj.status.(phase := st.phase, readyPeers := st.readyPeers, lastError := "")
    {
      hide Patched, HasInjectedInit, ObservePhase, WorkloadError, WorkloadAfter;
      if !read.Found? {
        return read.Missing?;
      }
      var base := read.value.version;
      var cc := read.value.obj.(spec := Defaulted(read.value.obj.spec));
      if deleting {
        return true;
      }
      var failed := infra;
      if failed.None? && cc.spec.patchMode == "Owned" && cc.status.key != "" {
        failed := cluster.ReconcileWorkload(cc, name, write);
      }
      if failed.Some? {
        cc := cc.(status := cc.status.(phase := "Failed", lastError := failed.value));
        var ignored := api.UpdateStatus(base, cc.status);
        return false;
      }
      WhatThePhasesMean(ready, cc, cluster.deployment);
      var observed := ObservePhase(ready, cc, cluster.deployment);
      cc := cc.(status := cc.status.(phase := observed.0, readyPeers := observed.1, lastError := ""));
      ok := api.UpdateStatus(base, cc.status);
    }
  }

  // ---------------------------------------------------------------- the webhook

  datatype Pod = Pod(labels: map<string, string>, template: Template)

  datatype Response = Errored(code: int) | Allowed | Mutated(pod: Pod)

  const INJECT_LABEL := "classcache.dev/inject"

  predicate Injects(pod: Pod, cc: Lookup<ClassCache>) {
    && INJECT_LABEL in pod.labels && pod.labels[INJECT_LABEL] != ""
    && cc.Found? && cc.value.spec.patchMode == "Webhook" && cc.value.status.key != ""
  }

  function WebhookSpec(cc: ClassCache): PatchSpec {
    PatchSpec(Or(cc.spec.archiveDir, DEFAULT_DIR), cc.status.key)
  }

  method Handle(decoded: Option<Pod>, cc: Lookup<ClassCache>) returns (r: Response)
    ensures r == Errored(400) <==> decoded.None?
    ensures r == Errored(500) <==>
              && decoded.Some? && cc.Broken?
              && INJECT_LABEL in decoded.value.labels && decoded.value.labels[INJECT_LABEL] != ""
    ensures r.Mutated? <==>
              && decoded.Some? && Injects(decoded.value, cc)
              && Patched(decoded.value.template, WebhookSpec(cc.value)) != decoded.value.template
    ensures r.Mutated? ==>
              r.pod == decoded.value.(template := Patched(decoded.value.template, WebhookSpec(cc.value)))
    // so every pod that asks for it leaves with the patch for the published key, and no other pod is touched
    ensures decoded.Some? && cc.Found? ==>
              var pod, spec, key := decoded.value, cc.value.spec, cc.value.status.key;
              var asks := "classcache.dev/inject" in pod.labels && pod.labels["classcache.dev/inject"] != "";
              var dir := if spec.archiveDir == "" then "/var/lib/classcache" else spec.archiveDir;
              (if r.Mutated? then r.pod.template else pod.template)
              == if asks && spec.patchMode == "Webhook" && key != "" then Patched(pod.template, PatchSpec(dir, key))
                 else pod.template
  {
    if decoded.None? {
      return Errored(400);
    }
    var pod := decoded.value;
    if INJECT_LABEL !in pod.labels || pod.labels[INJECT_LABEL] == "" {
      return Allowed;
    }
    match cc {
      case Missing =>
        return Allowed;
      case Broken(_) =>
        return Errored(500);
      case Found(o) =>
        if o.spec.patchMode != "Webhook" || o.status.key == "" {
          return Allowed;
        }
        var dir := if o.spec.archiveDir == "" then DEFAULT_DIR else o.spec.archiveDir;
        var pt := new PodTemplate(pod.template);
        var changed := pt.ApplyPodPatch(PatchSpec(dir, o.status.key));
        if !changed {
          return Allowed;
        }
        return Mutated(pod.(template := pt.View()));
    }
  }
}
