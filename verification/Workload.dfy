/** ApplyPodPatch: the in-place edit of a pod template that makes a workload boot from the archive. It is
  * shared by the reconciler and the admission webhook.
  */
module Workload {
  import opened Prelude

  const INIT_NAME := "cc-wait-archive"
  const VOLUME_NAME := "cc-archive"
  const ENV_NAME := "CLASSCACHE_JAVA_OPTS"

  datatype Source = HostPath(path: string, kind: string) | OtherSource(what: string)

  datatype Volume = Volume(name: string, source: Source)

  datatype Mount = Mount(name: string, path: string, readOnly: bool)

  datatype EnvVar = EnvVar(name: string, value: string, valueFrom: Option<string>)

  /** `rest` stands for all fields that the patch does not know. */
  datatype Container = Container(
    name: string, image: string, command: seq<string>, mounts: seq<Mount>, env: seq<EnvVar>, rest: string)

  datatype Template = Template(
    volumes: seq<Volume>, inits: seq<Container>, containers: seq<Container>, rest: string)

  datatype PatchSpec = PatchSpec(dir: string, key: string)

  // ---------------------------------------------------------------- what is added

  function ArchiveFile(p: PatchSpec): string {
    p.dir + "/" + p.key + ".jsa"
  }

  function ScriptFor(file: string): string {
    "set -e; for i in $(seq 1 600); do " + "[ -s " + file + " ] && exit 0;" + " sleep 1; done; echo \"archive "
    + file + " never appeared\" >&2; exit 1"
  }

  function WaitScript(p: PatchSpec): string {
    ScriptFor(ArchiveFile(p))
  }

  function OptsFor(file: string): string {
    "-XX:+UnlockDiagnosticVMOptions -XX:+AllowArchivingWithJavaAgent" + " -XX:SharedArchiveFile=" + file
    + " " + "-XX:ArchiveRelocationMode=0" + " -Xshare:on"
  }

  /** `part` stands in `text` at some place. */
  ghost predicate Within(text: string, part: string) {
    exists a, b :: text == a + part + b
  }

  ghost predicate EndsIn(text: string, part: string) {
    exists a :: text == a + part
  }

  /** A wait script that ends well only if this file is there and not empty. */
  ghost predicate WaitsFor(script: string, file: string) {
    Within(script, "[ -s " + file + " ] && exit 0;")
  }

  /** JVM options one of which is this archive, after the one that unlocks it; the last makes it mandatory. */
  ghost predicate BootsFrom(opts: string, file: string) {
    && "-XX:+UnlockDiagnosticVMOptions -XX:+AllowArchivingWithJavaAgent" <= opts
    && Within(opts, " -XX:SharedArchiveFile=" + file + " ") && EndsIn(opts, " -Xshare:on")
  }

  /** A text in six parts, the third of them between the second and the fourth, and the sixth at its end. */
  lemma SixParts(text: string, a: string, b: string, c: string, d: string, e: string, f: string)
    requires text == a + b + c + d + e + f
    ensures a <= text && Within(text, b + c + d) && EndsIn(text, f)
  {
    assert text == a + (b + c + d) + (e + f);
  }

  /** The options name the file, and two files never have the same options. */
  lemma OptsBootFrom(file: string)
    ensures BootsFrom(OptsFor(file), file)
    ensures forall other :: OptsFor(other) == OptsFor(file) ==> other == file
  {
    var a, b := "-XX:+UnlockDiagnosticVMOptions -XX:+AllowArchivingWithJavaAgent", " -XX:SharedArchiveFile=";
    var e, f := "-XX:ArchiveRelocationMode=0", " -Xshare:on";
    SixParts(OptsFor(file), a, b, file, " ", e, f);
    forall other | OptsFor(other) == OptsFor(file)
      ensures other == file
    {
      SameSlot(a, b, " ", e, f, file, other);
    }
  }

  lemma SameSlot(a: string, b: string, d: string, e: string, f: string, file: string, other: string)
    requires a + b + file + d + e + f == a + b + other + d + e + f
    ensures file == other
  {
    assert a + b + file + (d + e + f) == a + b + file + d + e + f;
    assert a + b + other + (d + e + f) == a + b + other + d + e + f;
    SameFrame(a + b, file, other, d + e + f);
  }

  lemma ScriptWaitsFor(file: string)
    ensures WaitsFor(ScriptFor(file), file)
  {
    var a, e := "set -e; for i in $(seq 1 600); do ", " sleep 1; done; echo \"archive ";
    var g := " never appeared\" >&2; exit 1";
    assert a + "[ -s " + file + " ] && exit 0;" + e + (file + g)
        == a + "[ -s " + file + " ] && exit 0;" + e + file + g;
    SixParts(ScriptFor(file), a, "[ -s ", file, " ] && exit 0;", e, file + g);
  }

  function OurVolume(p: PatchSpec): Volume {
    Volume(VOLUME_NAME, HostPath(p.dir, "DirectoryOrCreate"))
  }

  function OurMount(p: PatchSpec): Mount {
    Mount(VOLUME_NAME, p.dir, true)
  }

  function OurInit(p: PatchSpec): Container {
    Container(INIT_NAME, "busybox:1.36", ["sh", "-c", WaitScript(p)], [OurMount(p)], [], "")
  }

  function OurEnv(p: PatchSpec): EnvVar {
    EnvVar(ENV_NAME, OptsFor(ArchiveFile(p)), None)
  }

  // ---------------------------------------------------------------- the edit as a function

  /** Index of the first element whose name is `name`; the length when there is none. */
  function Find(names: seq<string>, name: string): (k: nat)
    ensures k <= |names|
    ensures k < |names| ==> names[k] == name
    ensures forall j :: 0 <= j < k ==> names[j] != name
  {
    if names == [] then 0
    else if names[0] == name then 0
    else
      var k := Find(names[1..], name);
      assert forall j :: 1 <= j <= k ==> names[j] == names[1..][j - 1];
      k + 1
  }

  function VolumeNames(vs: seq<Volume>): seq<string> { seq(|vs|, i requires 0 <= i < |vs| => vs[i].name) }
  function MountNames(ms: seq<Mount>): seq<string> { seq(|ms|, i requires 0 <= i < |ms| => ms[i].name) }
  function EnvNames(es: seq<EnvVar>): seq<string> { seq(|es|, i requires 0 <= i < |es| => es[i].name) }
  function ContainerNames(cs: seq<Container>): seq<string> { seq(|cs|, i requires 0 <= i < |cs| => cs[i].name) }

  function VolumeAt(s: seq<Volume>): (k: nat)
    ensures k <= |s|
    ensures k < |s| ==> s[k].name == VOLUME_NAME
    ensures forall j :: 0 <= j < k ==> s[j].name != VOLUME_NAME
  {
    var k := Find(VolumeNames(s), VOLUME_NAME);
    assert forall j :: 0 <= j < |s| ==> VolumeNames(s)[j] == s[j].name;
    k
  }

  function MountAt(s: seq<Mount>): (k: nat)
    ensures k <= |s|
    ensures k < |s| ==> s[k].name == VOLUME_NAME
    ensures forall j :: 0 <= j < k ==> s[j].name != VOLUME_NAME
  {
    var k := Find(MountNames(s), VOLUME_NAME);
    assert forall j :: 0 <= j < |s| ==> MountNames(s)[j] == s[j].name;
    k
  }

  function EnvAt(s: seq<EnvVar>): (k: nat)
    ensures k <= |s|
    ensures k < |s| ==> s[k].name == ENV_NAME
    ensures forall j :: 0 <= j < k ==> s[j].name != ENV_NAME
  {
    var k := Find(EnvNames(s), ENV_NAME);
    assert forall j :: 0 <= j < |s| ==> EnvNames(s)[j] == s[j].name;
    k
  }

  function InitAt(s: seq<Container>): (k: nat)
    ensures k <= |s|
    ensures k < |s| ==> s[k].name == INIT_NAME
    ensures forall j :: 0 <= j < k ==> s[j].name != INIT_NAME
  {
    var k := Find(ContainerNames(s), INIT_NAME);
    assert forall j :: 0 <= j < |s| ==> ContainerNames(s)[j] == s[j].name;
    k
  }

  function WithVolume(vs: seq<Volume>, p: PatchSpec): seq<Volume> {
    if VolumeAt(vs) < |vs| then vs else vs + [OurVolume(p)]
  }

  /** Only the image and the command are compared. */
  predicate Equivalent(a: Container, b: Container) {
    a.image == b.image && a.command == b.command
  }

  function WithInit(cs: seq<Container>, p: PatchSpec): seq<Container> {
    var k := InitAt(cs);
    if k == |cs| then [OurInit(p)] + cs
    else if Equivalent(cs[k], OurInit(p)) then cs
    else cs[k := OurInit(p)]
  }

  function WithMount(ms: seq<Mount>, p: PatchSpec): seq<Mount> {
    if MountAt(ms) < |ms| then ms else ms + [OurMount(p)]
  }

  function WithEnv(es: seq<EnvVar>, p: PatchSpec): seq<EnvVar> {
    var k := EnvAt(es);
    if k == |es| then es + [OurEnv(p)] else es[k := es[k].(value := OptsFor(ArchiveFile(p)))]
  }

  /** The first variable of our name has options that boot from the file. */
  ghost predicate ExportsOpts(es: seq<EnvVar>, file: string) {
    exists k ::
      && 0 <= k < |es| && es[k].name == "CLASSCACHE_JAVA_OPTS" && BootsFrom(es[k].value, file)
      && forall j :: 0 <= j < k ==> es[j].name != "CLASSCACHE_JAVA_OPTS"
  }

  lemma ExportsOptsAfter(es: seq<EnvVar>, p: PatchSpec)
    ensures ExportsOpts(WithEnv(es, p), p.dir + "/" + p.key + ".jsa")
  {
    OptsBootFrom(ArchiveFile(p));
    hide OptsFor, BootsFrom;
    var k, after := EnvAt(es), WithEnv(es, p);
    assert after[k].name == ENV_NAME && forall j :: 0 <= j < k ==> after[j].name == es[j].name;
  }

  function WithBoth(c: Container, p: PatchSpec): Container {
    c.(mounts := WithMount(c.mounts, p), env := WithEnv(c.env, p))
  }

  function WithAll(cs: seq<Container>, p: PatchSpec): seq<Container> {
    seq(|cs|, i requires 0 <= i < |cs| => WithBoth(cs[i], p))
  }

  function Patched(t: Template, p: PatchSpec): Template {
    Template(WithVolume(t.volumes, p), WithInit(t.inits, p), WithAll(t.containers, p), t.rest)
  }

  // ---------------------------------------------------------------- the edit in place

  class PodTemplate {
    var volumes: seq<Volume>
    var inits: seq<Container>
    var containers: seq<Container>
    var rest: string

    constructor (t: Template)
      ensures View() == t
    {
      volumes, inits, containers, rest := t.volumes, t.inits, t.containers, t.rest;
    }

    function View(): Template
      reads this
    {
      Template(volumes, inits, containers, rest)
    }

    method EnsureVolume(p: PatchSpec) returns (changed: bool)
      modifies this
      ensures View() == old(View()).(volumes := WithVolume(old(volumes), p))
      ensures changed <==> View() != old(View())
      ensures volumes == old(volumes) + (if exists v :: v in old(volumes) && v.name == "cc-archive" then []
                                         else [Volume("cc-archive", HostPath(p.dir, "DirectoryOrCreate"))])
    {
      for i := 0 to |volumes|
        invariant i <= VolumeAt(volumes)
      {
        if volumes[i].name == VOLUME_NAME {
          return false;
        }
      }
      volumes := volumes + [OurVolume(p)];
      assert |volumes| == |old(volumes)| + 1;
      return true;
    }

    method EnsureInitContainer(p: PatchSpec) returns (changed: bool)
      modifies this
      ensures View() == old(View()).(inits := WithInit(old(inits), p))
      ensures changed <==> View() != old(View())
      ensures var file := p.dir + "/" + p.key + ".jsa";
              var ours := Container("cc-wait-archive", "busybox:1.36", ["sh", "-c", WaitScript(p)],
                                    [Mount("cc-archive", p.dir, true)], [], "");
              && WaitsFor(WaitScript(p), file)
              && ((forall c :: c in old(inits) ==> c.name != "cc-wait-archive") ==> inits == [ours] + old(inits))
              && forall k ::
                   && 0 <= k < |old(inits)| && old(inits)[k].name == "cc-wait-archive"
                   && (forall j :: 0 <= j < k ==> old(inits)[j].name != "cc-wait-archive")
                   ==> inits == (
                         if old(inits)[k].image == ours.image && old(inits)[k].command == ours.command then old(inits)
                         else old(inits)[k := ours])
    {
      ScriptWaitsFor(ArchiveFile(p));
      hide WaitsFor, ScriptFor;
      var desired := OurInit(p);
      for i := 0 to |inits|
        invariant inits == old(inits) && View() == old(View())
        invariant i <= InitAt(inits)
      {
        if inits[i].name == INIT_NAME {
          if !Equivalent(inits[i], desired) {
            inits := inits[i := desired];
            assert inits[i] != old(inits)[i];
            return true;
          }
          return false;
        }
      }
      inits := [desired] + inits;
      assert |inits| == |old(inits)| + 1;
      return true;
    }

    /** Adds to the i-th container, through a pointer into the slice. */
    method AddMount(i: nat, p: PatchSpec) returns (changed: bool)
      requires i < |containers|
      modifies this`containers
      ensures containers ==
              old(containers)[i := old(containers)[i].(mounts := WithMount(old(containers)[i].mounts, p))]
      ensures changed <==> containers != old(containers)
      ensures var was := old(containers)[i].mounts;
              containers[i].mounts == was + (if exists m :: m in was && m.name == "cc-archive" then []
                                             else [Mount("cc-archive", p.dir, true)])
    {
      var ms := containers[i].mounts;
      for j := 0 to |ms|
        invariant j <= MountAt(ms)
      {
        if ms[j].name == VOLUME_NAME {
          assert WithMount(ms, p) == ms;
          return false;
        }
      }
      containers := containers[i := containers[i].(mounts := ms + [OurMount(p)])];
      assert |containers[i].mounts| == |old(containers)[i].mounts| + 1;
      return true;
    }

    method AddEnv(i: nat, p: PatchSpec) returns (changed: bool)
      requires i < |containers|
      modifies this`containers
      ensures containers == old(containers)[i := old(containers)[i].(env := WithEnv(old(containers)[i].env, p))]
      ensures changed <==> containers != old(containers)
      ensures ExportsOpts(containers[i].env, p.dir + "/" + p.key + ".jsa")
    {
      ExportsOptsAfter(containers[i].env, p);
      var opts := OptsFor(ArchiveFile(p));
      var es := containers[i].env;
      for j := 0 to |es|
        invariant containers == old(containers)
        invariant j <= EnvAt(es)
      {
        if es[j].name == ENV_NAME {
          if es[j].value == opts {
            assert WithEnv(es, p) == es;
            return false;
          }
          containers := containers[i := containers[i].(env := es[j := es[j].(value := opts)])];
          assert containers[i].env[j] != old(containers)[i].env[j];
          return true;
        }
      }
      containers := containers[i := containers[i].(env := es + [EnvVar(ENV_NAME, opts, None)])];
      assert |containers[i].env| == |old(containers)[i].env| + 1;
      return true;
    }

    method MountAndEnv(i: nat, p: PatchSpec) returns (changed: bool)
      requires i < |containers|
      modifies this`containers
      ensures |containers| == |old(containers)|
      ensures containers[i] == WithBoth(old(containers)[i], p)
      ensures forall k :: 0 <= k < |containers| && k != i ==> containers[k] == old(containers)[k]
      ensures changed <==> containers[i] != old(containers)[i]
    {
      var c := containers[i];
      var mounted := AddMount(i, p);
      assert mounted <==> containers[i].mounts != c.mounts;
      var set_ := AddEnv(i, p);
      assert set_ <==> containers[i].env != c.env;
      return mounted || set_;
    }

    method EnsureWorkloadMountAndEnv(p: PatchSpec) returns (changed: bool)
      modifies this`containers
      ensures containers == WithAll(old(containers), p)
      ensures changed <==> containers != old(containers)
    {
      hide WithBoth;
      changed := false;
      ghost var was := containers;
      for i := 0 to |containers|
        invariant |containers| == |was|
        invariant forall k :: 0 <= k < i ==> containers[k] == WithBoth(was[k], p)
        invariant forall k :: i <= k < |was| ==> containers[k] == was[k]
        invariant changed <==> exists k :: 0 <= k < i && containers[k] != was[k]
      {
        ghost var before := containers;
        var here := MountAndEnv(i, p);
        assert forall k :: 0 <= k < i ==> containers[k] == before[k];
        if here {
          changed := true;
        }
      }
      assert containers == WithAll(was, p);
    }

    /** The flag is exact: it is true if and only if the template is now a different one. */
    method ApplyPodPatch(p: PatchSpec) returns (changed: bool)
      modifies this
      ensures View() == Patched(old(View()), p)
      ensures changed <==> View() != old(View())
    {
      var a := EnsureVolume(p);
      var b := EnsureInitContainer(p);
      var c := EnsureWorkloadMountAndEnv(p);
      return a || b || c;
    }
  }
}
