/** Laws of the pod patch, for every template. */
module WorkloadLaws {
  import opened Prelude
  import opened Workload

  // ---------------------------------------------------------------- the texts determine the file

  lemma SameSlots(head: string, open: string, a: string, b: string, found: string, more: string, tail: string)
    requires head + open + a + found + more + a + tail == head + open + b + found + more + b + tail
    ensures a == b
  {
    var h := head + open;
    assert h + a + found + more + a + tail == h + a + (found + more) + a + tail;
    assert h + b + found + more + b + tail == h + b + (found + more) + b + tail;
    SameFrameTwice(h, a, b, found + more, tail);
  }

  lemma ScriptDeterminesFile(a: string, b: string)
    requires ScriptFor(a) == ScriptFor(b)
    ensures a == b
  {
    SameSlots("set -e; for i in $(seq 1 600); do ", "[ -s ", a, b, " ] && exit 0;",
              " sleep 1; done; echo \"archive ", " never appeared\" >&2; exit 1");
  }

  /** With one directory, two keys never give the same JVM options. */
  lemma OptsDetermineKey(p: PatchSpec, q: PatchSpec)
    requires p.dir == q.dir
    ensures OurEnv(p).value == OurEnv(q).value <==> p.key == q.key
  {
    OptsBootFrom(ArchiveFile(p));
    hide OptsFor, BootsFrom;
    if OurEnv(p).value == OurEnv(q).value {
      FileDeterminesKey(p, q);
    }
  }

  /** With one directory, the archive file names the key. */
  lemma FileDeterminesKey(p: PatchSpec, q: PatchSpec)
    requires p.dir == q.dir && ArchiveFile(p) == ArchiveFile(q)
    ensures p.key == q.key
  {
    assert ArchiveFile(p) == (p.dir + "/") + p.key + ".jsa";
    assert ArchiveFile(q) == (p.dir + "/") + q.key + ".jsa";
    SameFrame(p.dir + "/", p.key, q.key, ".jsa");
  }

  lemma InitDeterminesKey(p: PatchSpec, q: PatchSpec)
    requires p.dir == q.dir
    ensures Equivalent(OurInit(p), OurInit(q)) <==> p.key == q.key
    ensures p.key == q.key ==> p == q
  {
    if Equivalent(OurInit(p), OurInit(q)) {
      assert OurInit(p).command[2] == OurInit(q).command[2];
      ScriptDeterminesFile(ArchiveFile(p), ArchiveFile(q));
      FileDeterminesKey(p, q);
    }
  }

  // ---------------------------------------------------------------- repeated patches

  lemma VolumesSettle(vs: seq<Volume>, p: PatchSpec, q: PatchSpec)
    ensures WithVolume(WithVolume(vs, p), q) == WithVolume(vs, p)
  {
    if VolumeAt(vs) == |vs| { assert (vs + [OurVolume(p)])[|vs|].name == VOLUME_NAME; }
  }

  lemma MountsSettle(ms: seq<Mount>, p: PatchSpec, q: PatchSpec)
    ensures WithMount(WithMount(ms, p), q) == WithMount(ms, p)
  {
    if MountAt(ms) == |ms| { assert (ms + [OurMount(p)])[|ms|].name == VOLUME_NAME; }
  }

  lemma EnvAtAfter(es: seq<EnvVar>, p: PatchSpec)
    ensures var k, after := EnvAt(es), WithEnv(es, p);
            && EnvAt(after) == k < |after|
            && after[k].value == OptsFor(ArchiveFile(p))
  {
    hide OptsFor, ArchiveFile;
    var k, after := EnvAt(es), WithEnv(es, p);
    assert after[k].name == ENV_NAME && forall j :: 0 <= j < k ==> after[j].name == es[j].name;
  }

  lemma EnvTakesTheLast(es: seq<EnvVar>, p: PatchSpec, q: PatchSpec)
    ensures WithEnv(WithEnv(es, p), q) == WithEnv(es, q)
  {
    hide OptsFor, ArchiveFile;
    EnvAtAfter(es, p);
  }

  lemma ContainerTakesTheLast(c: Container, p: PatchSpec, q: PatchSpec)
    requires p.dir == q.dir
    ensures WithBoth(WithBoth(c, p), q) == WithBoth(c, q)
  {
    hide OptsFor, ArchiveFile, WithEnv;
    MountsSettle(c.mounts, p, q);
    EnvTakesTheLast(c.env, p, q);
    assert WithMount(c.mounts, p) == WithMount(c.mounts, q);
  }

  lemma ContainersTakeTheLast(cs: seq<Container>, p: PatchSpec, q: PatchSpec)
    requires p.dir == q.dir
    ensures WithAll(WithAll(cs, p), q) == WithAll(cs, q)
  {
    hide WithBoth;
    forall i | 0 <= i < |cs|
      ensures WithAll(WithAll(cs, p), q)[i] == WithAll(cs, q)[i]
    {
      ContainerTakesTheLast(cs[i], p, q);
    }
  }

  /** Our init container is already there under another key's later wish: image and command fit `q`, the
    * rest of it does not. */
  predicate HalfFits(cs: seq<Container>, q: PatchSpec) {
    var k := InitAt(cs);
    k < |cs| && Equivalent(cs[k], OurInit(q)) && cs[k] != OurInit(q)
  }

  lemma InitAtAfter(cs: seq<Container>, p: PatchSpec)
    ensures var k, after := InitAt(cs), WithInit(cs, p);
            && InitAt(after) == (if k == |cs| then 0 else k)
            && InitAt(after) < |after|
            && Equivalent(after[InitAt(after)], OurInit(p))
  {
    var k, after := InitAt(cs), WithInit(cs, p);
    if k == |cs| {
      assert after[0].name == INIT_NAME;
    } else {
      assert after[k].name == INIT_NAME;
      assert forall j :: 0 <= j < k ==> after[j].name == cs[j].name;
    }
  }

  lemma InitTakesTheLast(cs: seq<Container>, p: PatchSpec, q: PatchSpec)
    requires p.dir == q.dir
    ensures WithInit(WithInit(cs, p), q) == WithInit(cs, q) <==> p.key == q.key || !HalfFits(cs, q)
  {
    var k, once := InitAt(cs), WithInit(cs, p);
    InitAtAfter(cs, p);
    InitDeterminesKey(p, q);
    if k == |cs| {
      assert ([OurInit(p)] + cs)[0 := OurInit(q)] == [OurInit(q)] + cs;
    } else if p.key != q.key {
      if Equivalent(cs[k], OurInit(p)) {
        assert once == cs && !Equivalent(cs[k], OurInit(q));
      } else {
        assert once == cs[k := OurInit(p)];
        assert WithInit(once, q) == cs[k := OurInit(q)];
        assert WithInit(once, q)[k] == OurInit(q);
        assert HalfFits(cs, q) ==> WithInit(cs, q)[k] != OurInit(q);
        assert !HalfFits(cs, q) && Equivalent(cs[k], OurInit(q)) ==> cs[k := OurInit(q)] == cs;
      }
    }
  }

  /** Forgetting the earlier key: with one directory, patching for `p` and then for `q` is the same as
    * patching for `q` alone, exactly unless the template came with our init container already half set
    * up for `q`, which a detour over another key overwrites. */
  lemma TheEarlierKeyIsForgotten(t: Template, p: PatchSpec, q: PatchSpec)
    requires p.dir == q.dir
    ensures Patched(Patched(t, p), q) == Patched(t, q) <==> p.key == q.key || !HalfFits(t.inits, q)
  {
    VolumesSettle(t.volumes, p, q);
    assert WithVolume(t.volumes, p) == WithVolume(t.volumes, q);
    ContainersTakeTheLast(t.containers, p, q);
    InitTakesTheLast(t.inits, p, q);
  }

  function PatchedBy(t: Template, ps: seq<PatchSpec>): Template {
    if ps == [] then t else Patched(PatchedBy(t, ps[..|ps| - 1]), ps[|ps| - 1])
  }

  lemma {:induction false} PatchedFirst(t: Template, p: PatchSpec, ps: seq<PatchSpec>)
    ensures PatchedBy(t, [p] + ps) == PatchedBy(Patched(t, p), ps)
  {
    hide Patched;
    var all := [p] + ps;
    if ps == [] {
      assert all[..0] == [] && all[0] == p;
      assert PatchedBy(t, all[..0]) == t;
    } else {
      assert all[..|all| - 1] == [p] + ps[..|ps| - 1];
      PatchedFirst(t, p, ps[..|ps| - 1]);
    }
  }

  /** After a patch for another key nothing is half set up any more; after one for the same key, whatever was. */
  lemma HalfFitsAfter(cs: seq<Container>, p: PatchSpec, q: PatchSpec)
    requires p.dir == q.dir
    ensures HalfFits(WithInit(cs, p), q) <==> p.key == q.key && HalfFits(cs, q)
  {
    assert OurInit(p).name == INIT_NAME;
    hide OurInit;
    InitAtAfter(cs, p);
    InitDeterminesKey(p, q);
  }

  predicate AllFor(ps: seq<PatchSpec>, key: string) {
    forall i :: 0 <= i < |ps| ==> ps[i].key == key
  }

  lemma AllForTail(p: PatchSpec, rest: seq<PatchSpec>, key: string)
    ensures AllFor([p] + rest, key) <==> p.key == key && AllFor(rest, key)
  {
    var all := [p] + rest;
    if AllFor(all, key) {
      forall i | 0 <= i < |rest|
        ensures rest[i].key == key
      {
        assert all[i + 1] == rest[i];
      }
      assert all[0] == p;
    }
  }

  /** Last key wins: any patches with one directory amount to the last of them, exactly if they all have the same key
    * or the template did not come half set up for the last one; so for every template without our init container. */
  lemma {:induction false} LastKeyWins(t: Template, ps: seq<PatchSpec>)
    requires ps != []
    requires forall i :: 0 <= i < |ps| ==> ps[i].dir == ps[0].dir
    ensures var q := ps[|ps| - 1];
            PatchedBy(t, ps) == Patched(t, q) <==> AllFor(ps, q.key) || !HalfFits(t.inits, q)
    ensures InitAt(t.inits) == |t.inits| ==> PatchedBy(t, ps) == Patched(t, ps[|ps| - 1])
    decreases |ps|
  {
    var p, q, rest := ps[0], ps[|ps| - 1], ps[1..];
    assert Patched(t, p).inits == WithInit(t.inits, p);
    assert InitAt(t.inits) == |t.inits| ==> !HalfFits(t.inits, q);
    AllForTail(p, rest, q.key);
    assert ps == [p] + rest;
    hide Patched, HalfFits, WithInit;
    if rest == [] {
      assert ps[..0] == [];
      assert PatchedBy(t, ps[..0]) == t;
    } else {
      hide AllFor, PatchedBy;
      assert rest[|rest| - 1] == q;
      PatchedFirst(t, p, rest);
      LastKeyWins(Patched(t, p), rest);
      TheEarlierKeyIsForgotten(t, p, q);
      HalfFitsAfter(t.inits, p, q);
    }
  }

  /** The directory is different: for a template with none of our names, the second patch makes up for the
    * first exactly when the directory is still the same. The volume and the mounts stay where they are. */
  lemma TheDirectoryIsNotRepointed(t: Template, p: PatchSpec, q: PatchSpec)
    requires InitAt(t.inits) == |t.inits| && VolumeAt(t.volumes) == |t.volumes|
    ensures Patched(Patched(t, p), q) == Patched(t, q) <==> p.dir == q.dir
  {
    if p.dir == q.dir {
      TheEarlierKeyIsForgotten(t, p, q);
    } else {
      VolumesSettle(t.volumes, p, q);
      assert WithVolume(t.volumes, p)[|t.volumes|] != WithVolume(t.volumes, q)[|t.volumes|];
    }
  }

  /** A patched template is changed again exactly by another key: applying the same patch twice changes
    * nothing, and no change of key is missed. */
  lemma OnlyANewKeyChangesAPatchedTemplate(t: Template, p: PatchSpec, q: PatchSpec)
    requires p.dir == q.dir
    ensures Patched(Patched(t, p), q) == Patched(t, p) <==> p.key == q.key
  {
    var once := Patched(t, p);
    InitAtAfter(t.inits, p);
    InitDeterminesKey(p, q);
    if p.key == q.key {
      VolumesSettle(t.volumes, p, q);
      ContainersTakeTheLast(t.containers, p, q);
    } else {
      InitAtAfter(once.inits, q);
      assert !(Equivalent(once.inits[InitAt(once.inits)], OurInit(p))
               && Equivalent(once.inits[InitAt(once.inits)], OurInit(q)));
    }
  }

  /** The container mounts the cache directory and its JVM options boot from the file. */
  ghost predicate Boots(c: Container, file: string) {
    (exists m :: m in c.mounts && m.name == "cc-archive") && ExportsOpts(c.env, file)
  }

  /** The first init container of our name waits for the file. */
  ghost predicate Waits(cs: seq<Container>, file: string) {
    exists k ::
      && 0 <= k < |cs| && cs[k].name == "cc-wait-archive"
      && (forall j :: 0 <= j < k ==> cs[j].name != "cc-wait-archive")
      && |cs[k].command| == 3 && cs[k].command[..2] == ["sh", "-c"] && WaitsFor(cs[k].command[2], file)
  }

  lemma ContainerBoots(c: Container, p: PatchSpec)
    ensures Boots(WithBoth(c, p), p.dir + "/" + p.key + ".jsa")
  {
    hide ExportsOpts, WithEnv;
    ExportsOptsAfter(c.env, p);
    var d := WithBoth(c, p);
    if MountAt(c.mounts) == |c.mounts| { assert d.mounts[|c.mounts|].name == VOLUME_NAME; }
    assert d.mounts[MountAt(c.mounts)] in d.mounts;
  }

  /** After any patch of any template, the wait script and every container's JVM options name the same
    * archive file, the patch's directory and key, and volume and mounts are in place. */
  lemma EverythingNamesTheSameFile(t: Template, p: PatchSpec)
    ensures var u, file := Patched(t, p), p.dir + "/" + p.key + ".jsa";
            && (exists v :: v in u.volumes && v.name == "cc-archive")
            && Waits(u.inits, file)
            && |u.containers| == |t.containers|
            && forall i :: 0 <= i < |u.containers| ==> Boots(u.containers[i], file)
  {
    hide Boots, WithBoth;
    var u, file := Patched(t, p), p.dir + "/" + p.key + ".jsa";
    InitAtAfter(t.inits, p);
    if VolumeAt(t.volumes) == |t.volumes| { assert u.volumes[|t.volumes|].name == VOLUME_NAME; }
    assert u.volumes[VolumeAt(t.volumes)] in u.volumes;
    ScriptWaitsFor(file);
    var k := InitAt(u.inits);
    assert WaitsFor(u.inits[k].command[2], file) by {
      assert u.inits[k].command == OurInit(p).command;
      hide ScriptFor, WaitsFor;
    }
    assert Waits(u.inits, file) by {
      hide WaitsFor, WaitScript;
      assert u.inits[k].command == OurInit(p).command;
    }
    forall i | 0 <= i < |u.containers|
      ensures Boots(u.containers[i], file)
    {
      ContainerBoots(t.containers[i], p);
    }
  }

  // ---------------------------------------------------------------- what is not ours

  function Others<T>(s: seq<T>, ours: T -> bool): seq<T> {
    if s == [] then [] else (if ours(s[0]) then [] else [s[0]]) + Others(s[1..], ours)
  }

  lemma {:induction false} OthersConcat<T>(a: seq<T>, b: seq<T>, ours: T -> bool)
    ensures Others(a + b, ours) == Others(a, ours) + Others(b, ours)
  {
    if a == [] {
      assert a + b == b;
    } else {
      assert (a + b)[1..] == a[1..] + b;
      OthersConcat(a[1..], b, ours);
    }
  }

  lemma OthersUpdate<T>(s: seq<T>, k: nat, x: T, ours: T -> bool)
    requires k < |s| && ours(s[k]) && ours(x)
    ensures Others(s[k := x], ours) == Others(s, ours)
  {
    assert s == s[..k] + ([s[k]] + s[k + 1..]);
    assert s[k := x] == s[..k] + ([x] + s[k + 1..]);
    OthersConcat(s[..k], [s[k]] + s[k + 1..], ours);
    OthersConcat(s[..k], [x] + s[k + 1..], ours);
    assert ([x] + s[k + 1..])[1..] == ([s[k]] + s[k + 1..])[1..];
  }

  predicate IsOurVolume(v: Volume) { v.name == VOLUME_NAME }
  predicate IsOurMount(m: Mount) { m.name == VOLUME_NAME }
  predicate IsOurEnv(e: EnvVar) { e.name == ENV_NAME }
  predicate IsOurInit(c: Container) { c.name == INIT_NAME }

  function Foreign(c: Container): Container {
    c.(mounts := Others(c.mounts, IsOurMount), env := Others(c.env, IsOurEnv))
  }

  /** The template with everything under our names erased. */
  function Erased(t: Template): Template {
    Template(
      Others(t.volumes, IsOurVolume),
      Others(t.inits, IsOurInit),
      seq(|t.containers|, i requires 0 <= i < |t.containers| => Foreign(t.containers[i])),
      t.rest)
  }

  lemma ForeignKept(c: Container, p: PatchSpec)
    ensures Foreign(WithBoth(c, p)) == Foreign(c)
  {
    OthersConcat(c.mounts, [OurMount(p)], IsOurMount);
    OthersConcat(c.env, [OurEnv(p)], IsOurEnv);
    var k := EnvAt(c.env);
    if k < |c.env| {
      OthersUpdate(c.env, k, c.env[k].(value := OptsFor(ArchiveFile(p))), IsOurEnv);
    }
  }

  /** Frame: nothing outside our names is added, removed, changed or reordered. */
  lemma ForeignEntriesAreUntouched(t: Template, p: PatchSpec)
    ensures Erased(Patched(t, p)) == Erased(t)
  {
    OthersConcat(t.volumes, [OurVolume(p)], IsOurVolume);
    OthersConcat([OurInit(p)], t.inits, IsOurInit);
    var k := InitAt(t.inits);
    if k < |t.inits| {
      OthersUpdate(t.inits, k, OurInit(p), IsOurInit);
    }
    forall i | 0 <= i < |t.containers|
      ensures Foreign(WithAll(t.containers, p)[i]) == Foreign(t.containers[i])
    {
      ForeignKept(t.containers[i], p);
    }
  }

  /** ... and so after any number of patches. */
  lemma {:induction false} ForeignEntriesSurviveAllPatches(t: Template, ps: seq<PatchSpec>)
    ensures Erased(PatchedBy(t, ps)) == Erased(t)
  {
    if ps != [] {
      ForeignEntriesSurviveAllPatches(t, ps[..|ps| - 1]);
      ForeignEntriesAreUntouched(PatchedBy(t, ps[..|ps| - 1]), ps[|ps| - 1]);
    }
  }
}
