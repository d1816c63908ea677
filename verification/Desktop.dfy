/** The desktop application's savings sample: one docker call per node that answers, one kubectl exec per pod on
  * the other nodes, in whatever order Go ranges over its map of nodes.
  */
module Desktop {
  import opened Prelude
  import opened Smaps
  import opened SmapsLaws

  datatype PodId = PodId(ns: string, name: string, node: string)

  /** What the commands would answer; a missing key is a command that fails. */
  datatype Answers = Answers(
    pgrep: map<string, seq<string>>,
    nodeSmaps: map<(string, string), string>,
    podSmaps: map<(string, string), string>)

  /** The figures of a sample: the counters, the mapped size, and the number of processes with an archive. */
  datatype Figure = Kib(c: Counter) | Size | Jvms

  const EMPTY := Tally(false, false, 0, ZERO)

  /** What one dump adds to a figure; one that shows no Rss of an archive mapping is no JVM. */
  ghost function DumpValue(text: string, f: Figure): nat {
    match f
    case Kib(c) => Get(GoTotals(text), c)
    case Size => GoScan(EMPTY, GoLines(text)).size
    case Jvms => if ShowsRss(text) then 1 else 0
  }

  ghost function Value<K>(dumps: map<K, string>, key: K, f: Figure): nat {
    if key in dumps then DumpValue(dumps[key], f) else 0
  }

  ghost function PidSum(a: Answers, node: string, pids: seq<string>, f: Figure): nat {
    if pids == [] then 0
    else
      var pid := pids[|pids| - 1];
      PidSum(a, node, pids[..|pids| - 1], f) + if pid == "" then 0 else Value(a.nodeSmaps, (node, pid), f)
  }

  ghost function NodeSum(a: Answers, node: string, f: Figure): nat {
    if node in a.pgrep then PidSum(a, node, a.pgrep[node], f) else 0
  }

  /** The pods on nodes that did not answer. */
  ghost function SlowSum(a: Answers, pods: seq<PodId>, f: Figure): nat {
    if pods == [] then 0
    else
      var p := pods[|pods| - 1];
      SlowSum(a, pods[..|pods| - 1], f) + if p.node in a.pgrep then 0 else Value(a.podSmaps, (p.ns, p.name), f)
  }

  /** The sum of `f` over a set, in no particular order. */
  ghost function SetSum(nodes: set<string>, f: string -> nat): nat {
    if nodes == {} then 0
    else
      var x :| x in nodes;
      f(x) + SetSum(nodes - {x}, f)
  }

  lemma {:induction false} SetSumRemove(nodes: set<string>, f: string -> nat, x: string)
    requires x in nodes
    ensures SetSum(nodes, f) == f(x) + SetSum(nodes - {x}, f)
    decreases nodes
  {
    var y :| y in nodes && SetSum(nodes, f) == f(y) + SetSum(nodes - {y}, f);
    if x != y {
      SetSumRemove(nodes - {y}, f, x);
      SetSumRemove(nodes - {x}, f, y);
      assert nodes - {y} - {x} == nodes - {x} - {y};
    }
  }

  /** Raising `f` by `d` at `x`, and nowhere else in the set. */
  lemma {:induction false} SetSumRaise(nodes: set<string>, f: string -> nat, g: string -> nat, x: string, d: nat)
    requires forall y <- nodes :: g(y) == f(y) + if y == x then d else 0
    ensures SetSum(nodes, g) == SetSum(nodes, f) + if x in nodes then d else 0
    decreases nodes
  {
    if nodes != {} {
      var y :| y in nodes;
      SetSumRemove(nodes, f, y);
      SetSumRemove(nodes, g, y);
      SetSumRaise(nodes - {y}, f, g, x, d);
    }
  }

  /** The nodes that are sampled as a whole. */
  ghost function FastSum(a: Answers, nodes: set<string>, f: Figure): nat {
    SetSum(nodes, node => NodeSum(a, node, f))
  }

  function NodesOf(pods: seq<PodId>): set<string> { set p <- pods :: p.node }

  /** What the sample must add up to for counter `c`. */
  ghost function SampleSum(a: Answers, pods: seq<PodId>, f: Figure): nat {
    FastSum(a, NodesOf(pods) * a.pgrep.Keys, f) + SlowSum(a, pods, f)
  }

  // ---------------------------------------------------------------- adding dumps to a snapshot

  /** The figures that are sums of numbers on lines. */
  function Name(f: Figure): string
    requires !f.Jvms?
  {
    if f.Size? then "Size:" else Label(f.c)
  }

  function Tell(s: Tally, f: Figure): nat
    requires !f.Jvms?
  {
    if f.Size? then s.size else Get(s.totals, f.c)
  }

  /** What a line adds to such a figure. */
  function LineAdds(inBlock: bool, line: string, f: Figure): nat
    requires !f.Jvms?
  {
    var field := GoField(line);
    if !inBlock || (HeaderLike(line) && Contains(line, ".jsa")) || "VmFlags:" <= line || field.None? then 0
    else if field.value.0 == Name(f) then field.value.1
    else 0
  }

  predicate Fits(n: nat) { Wrap(n) == n }

  lemma SizeReads(s: Tally, name: string, v: nat)
    ensures GoNamed(s, name, v).size == if name == "Size:" then Wrap(s.size + v) else s.size
  {
    hide Wrap;
  }

  lemma GoStepAdds(s: Tally, line: string, f: Figure)
    requires !f.Jvms? && Fits(Tell(s, f))
    ensures Tell(GoStep(s, line), f) == Wrap(Tell(s, f) + LineAdds(s.inBlock, line, f))
  {
    hide HeaderLike, Contains, GoField, GoNamed, Get, Label, Wrap;
    var field := GoField(line);
    if field.Some? {
      SizeReads(s, field.value.0, field.value.1);
      if f.Kib? {
        GoNamedReads(s, field.value.0, field.value.1, f.c);
      }
    }
  }

  lemma GoStepBlocks(s: Tally, e: Tally, line: string)
    requires s.inBlock == e.inBlock
    ensures GoStep(s, line).inBlock == GoStep(e, line).inBlock
  {
    hide HeaderLike, Contains, GoField;
  }

  lemma WrapTwice(a: nat, b: nat, v: nat)
    ensures Wrap(Wrap(a + b) + v) == Wrap(a + Wrap(b + v)) && Fits(Wrap(a + b)) && Fits(Wrap(b + v))
  {
    WrapOnce(a + b, v);
    WrapOnce(b + v, a);
  }

  /** Scanning any text into a snapshot adds what scanning it into an empty one gives. */
  lemma {:induction false} GoScanAdds(s: Tally, lines: seq<string>, f: Figure)
    requires !f.Jvms? && !s.inBlock && Fits(Tell(s, f))
    ensures var e, z := GoScan(s, lines), GoScan(EMPTY, lines);
            && e.inBlock == z.inBlock && Fits(Tell(z, f))
            && Tell(e, f) == Wrap(Tell(s, f) + Tell(z, f))
  {
    hide GoStep, Wrap, LineAdds;
    assert Tell(EMPTY, f) == 0;
    WrapOfZero();
    if lines != [] {
      hide Tell;
      var before, line := lines[..|lines| - 1], lines[|lines| - 1];
      var e, z := GoScan(s, before), GoScan(EMPTY, before);
      GoScanAdds(s, before, f);
      WrapTwice(Tell(s, f), Tell(z, f), LineAdds(z.inBlock, line, f));
      GoStepAdds(e, line, f);
      GoStepAdds(z, line, f);
      GoStepBlocks(e, z, line);
    }
  }

  // ---------------------------------------------------------------- the sampling loops

  datatype View = View(totals: Totals, size: nat, jvms: nat)

  function ViewOf(snap: Snapshot): View
    reads snap
  {
    View(snap.totals, snap.size, snap.jvms)
  }

  /** The view gives `n` for the figure; sums of KiB are unsigned 64-bit numbers. */
  predicate Gives(v: View, f: Figure, n: nat) {
    match f
    case Kib(c) => Get(v.totals, c) == Wrap(n)
    case Size => v.size == Wrap(n)
    case Jvms => v.jvms == n
  }

  /** One dump more, on top of a sum that the snapshot shows. */
  lemma OneDumpMore(v: View, text: string, sum: nat, f: Figure)
    requires Gives(v, f, sum)
    ensures var e := GoScan(Tally(false, false, v.size, v.totals), GoLines(text));
            Gives(View(e.totals, e.size, v.jvms + if e.hadAny then 1 else 0), f, sum + DumpValue(text, f))
  {
    var s := Tally(false, false, v.size, v.totals);
    if f.Jvms? {
      hide GoScan, GoLines, CountsRss;
      RssIsNoticed(s, GoLines(text));
    } else {
      hide GoScan, GoLines, Get, Wrap, ShowsRss;
      WrapOnce(sum, 0);
      WrapOnce(sum, DumpValue(text, f));
      GoScanAdds(s, GoLines(text), f);
    }
  }

  /** The snapshot shows the whole nodes `done` and, on top, what `more` says. */
  ghost predicate Shows(v: View, a: Answers, done: set<string>, more: imap<Figure, nat>) {
    forall f <- more :: Gives(v, f, FastSum(a, done, f) + more[f])
  }

  ghost function PidSums(a: Answers, node: string, pids: seq<string>): imap<Figure, nat> {
    imap f: Figure :: PidSum(a, node, pids, f)
  }

  ghost function SlowSums(a: Answers, pods: seq<PodId>): imap<Figure, nat> {
    imap f: Figure :: SlowSum(a, pods, f)
  }

  method SampleNode(a: Answers, node: string, snap: Snapshot, ghost done: set<string>)
    requires node in a.pgrep && Shows(ViewOf(snap), a, done, PidSums(a, node, []))
    modifies snap
    ensures Shows(ViewOf(snap), a, done, PidSums(a, node, a.pgrep[node]))
  {
    hide FastSum, Get, Wrap, GoScan;
    var pids := a.pgrep[node];
    var i := 0;
    assert pids[..0] == [];
    while i < |pids|
      invariant 0 <= i <= |pids|
      invariant Shows(ViewOf(snap), a, done, PidSums(a, node, pids[..i]))
    {
      var pid := pids[i];
      assert pids[..i + 1][..i] == pids[..i];
      ghost var soFar := PidSums(a, node, pids[..i]);
      i := i + 1;
      if pid == "" || (node, pid) !in a.nodeSmaps {
        assert PidSums(a, node, pids[..i]) == soFar;
        continue;
      }
      var dump := a.nodeSmaps[(node, pid)];
      forall f: Figure {
        OneDumpMore(ViewOf(snap), dump, FastSum(a, done, f) + soFar[f], f);
      }
      snap.AccumulateSmaps(dump);
    }
    assert pids[..|pids|] == pids;
  }

  method SampleSlowPods(a: Answers, pods: seq<PodId>, snap: Snapshot, ghost done: set<string>)
    requires Shows(ViewOf(snap), a, done, SlowSums(a, []))
    modifies snap
    ensures Shows(ViewOf(snap), a, done, SlowSums(a, pods))
  {
    hide FastSum, Get, Wrap, GoScan;
    var i := 0;
    assert pods[..0] == [];
    while i < |pods|
      invariant 0 <= i <= |pods|
      invariant Shows(ViewOf(snap), a, done, SlowSums(a, pods[..i]))
    {
      var p := pods[i];
      assert pods[..i + 1][..i] == pods[..i];
      ghost var soFar := SlowSums(a, pods[..i]);
      i := i + 1;
      if p.node in a.pgrep || (p.ns, p.name) !in a.podSmaps {
        assert SlowSums(a, pods[..i]) == soFar;
        continue;
      }
      var dump := a.podSmaps[(p.ns, p.name)];
      forall f: Figure {
        OneDumpMore(ViewOf(snap), dump, FastSum(a, done, f) + soFar[f], f);
      }
      snap.AccumulateSmaps(dump);
    }
    assert pods[..|pods|] == pods;
  }

  lemma NodeJoins(a: Answers, done: set<string>, node: string, f: Figure)
    requires node !in done
    ensures FastSum(a, done + {node}, f) == FastSum(a, done, f) + NodeSum(a, node, f)
  {
    var g := n => NodeSum(a, n, f);
    SetSumRemove(done + {node}, g, node);
    assert done + {node} - {node} == done;
  }

  /** A sampled node counts as one of the whole nodes. */
  lemma NodeIsDone(v: View, a: Answers, done: set<string>, node: string)
    requires node in a.pgrep && node !in done && Shows(v, a, done, PidSums(a, node, a.pgrep[node]))
    ensures Shows(v, a, done + {node}, SlowSums(a, []))
  {
    hide FastSum, Get, Wrap;
    forall f: Figure
      ensures Gives(v, f, FastSum(a, done + {node}, f) + 0)
    {
      NodeJoins(a, done, node, f);
      assert f in PidSums(a, node, a.pgrep[node]);
    }
  }

  lemma NoPids(v: View, a: Answers, done: set<string>, node: string)
    requires Shows(v, a, done, SlowSums(a, []))
    ensures Shows(v, a, done, PidSums(a, node, []))
  {
    assert SlowSums(a, []) == PidSums(a, node, []);
  }

  lemma NothingSampled(a: Answers)
    ensures Shows(View(ZERO, 0, 0), a, {}, SlowSums(a, []))
  {
  }

  lemma EverythingIsShown(v: View, a: Answers, pods: seq<PodId>)
    requires Shows(v, a, NodesOf(pods) * a.pgrep.Keys, SlowSums(a, pods))
    ensures forall f :: Gives(v, f, SampleSum(a, pods, f))
  {
    hide FastSum, SlowSum, Get, Wrap, NodesOf;
    assert forall f :: f in SlowSums(a, pods);
  }

  lemma NodeLeaves(all: set<string>, todo: set<string>, keys: set<string>, node: string)
    requires todo <= all && node in todo
    ensures node !in (all - todo) * keys
    ensures (all - (todo - {node})) * keys == (all - todo) * keys + if node in keys then {node} else {}
  {
  }

  method SampleSavings(a: Answers, pods: seq<PodId>) returns (snap: Snapshot, saved: nat)
    ensures fresh(snap)
    ensures forall c :: Get(snap.totals, c) == Wrap(SampleSum(a, pods, Kib(c)))
    ensures snap.size == Wrap(SampleSum(a, pods, Size)) && snap.jvms == SampleSum(a, pods, Jvms)
    ensures saved == if snap.totals.rss > snap.totals.pss then snap.totals.rss - snap.totals.pss else 0
  {
    hide FastSum, SlowSum, SlowSums, SampleSum, Shows, PidSums, Get, Wrap;
    snap := new Snapshot();
    var nodeSet := set p <- pods :: p.node;
    var todo, nodeOk := nodeSet, {};
    NothingSampled(a);
    while todo != {}
      invariant todo <= nodeSet && nodeOk == (nodeSet - todo) * a.pgrep.Keys
      invariant Shows(ViewOf(snap), a, nodeOk, SlowSums(a, []))
      decreases |todo|
    {
      var node :| node in todo;
      NodeLeaves(nodeSet, todo, a.pgrep.Keys, node);
      todo := todo - {node};
      if node !in a.pgrep {
        continue;
      }
      NoPids(ViewOf(snap), a, nodeOk, node);
      SampleNode(a, node, snap, nodeOk);
      NodeIsDone(ViewOf(snap), a, nodeOk, node);
      nodeOk := nodeOk + {node};
    }
    assert nodeOk == NodesOf(pods) * a.pgrep.Keys;
    SampleSlowPods(a, pods, snap, nodeOk);
    EverythingIsShown(ViewOf(snap), a, pods);
    saved := if snap.totals.rss > snap.totals.pss then snap.totals.rss - snap.totals.pss else 0;
  }

  // ---------------------------------------------------------------- every pod once

  /** The pods of one node, each read through its own pod. */
  ghost function PodsOn(a: Answers, pods: seq<PodId>, node: string, f: Figure): nat {
    if pods == [] then 0
    else
      var p := pods[|pods| - 1];
      PodsOn(a, pods[..|pods| - 1], node, f) + if p.node == node then Value(a.podSmaps, (p.ns, p.name), f) else 0
  }

  /** Every pod, each read through itself. */
  ghost function Everywhere(a: Answers, pods: seq<PodId>, f: Figure): nat {
    if pods == [] then 0
    else
      var p := pods[|pods| - 1];
      Everywhere(a, pods[..|pods| - 1], f) + Value(a.podSmaps, (p.ns, p.name), f)
  }

  lemma {:induction false} NodesPartitionThePods(a: Answers, pods: seq<PodId>, nodes: set<string>, f: Figure)
    requires nodes <= a.pgrep.Keys && NodesOf(pods) * a.pgrep.Keys <= nodes
    ensures SetSum(nodes, n => PodsOn(a, pods, n, f)) + SlowSum(a, pods, f) == Everywhere(a, pods, f)
  {
    var g := n => PodsOn(a, pods, n, f);
    if pods == [] {
      SetSumZero(nodes, g);
    } else {
      var before, p := pods[..|pods| - 1], pods[|pods| - 1];
      assert p.node in NodesOf(pods);
      assert forall n <- NodesOf(before) :: n in NodesOf(pods);
      NodesPartitionThePods(a, before, nodes, f);
      SetSumRaise(nodes, n => PodsOn(a, before, n, f), g, p.node, Value(a.podSmaps, (p.ns, p.name), f));
    }
  }

  lemma {:induction false} SetSumZero(nodes: set<string>, f: string -> nat)
    requires forall y <- nodes :: f(y) == 0
    ensures SetSum(nodes, f) == 0
    decreases nodes
  {
    if nodes != {} {
      var y :| y in nodes;
      SetSumRemove(nodes, f, y);
      SetSumZero(nodes - {y}, f);
    }
  }

  lemma {:induction false} SetSumSame(nodes: set<string>, f: string -> nat, g: string -> nat)
    requires forall y <- nodes :: f(y) == g(y)
    ensures SetSum(nodes, f) == SetSum(nodes, g)
    decreases nodes
  {
    if nodes != {} {
      var y :| y in nodes;
      SetSumRemove(nodes, f, y);
      SetSumRemove(nodes, g, y);
      SetSumSame(nodes - {y}, f, g);
    }
  }

  /** Whichever nodes answer, no pod is left out or counted twice: if the processes on an answering node are those of
    * its pods, the sample is what reading every pod once gives. */
  lemma EveryPodIsSampledOnce(a: Answers, pods: seq<PodId>, f: Figure)
    requires forall n <- NodesOf(pods) * a.pgrep.Keys :: NodeSum(a, n, f) == PodsOn(a, pods, n, f)
    ensures SampleSum(a, pods, f) == Everywhere(a, pods, f)
  {
    var nodes := NodesOf(pods) * a.pgrep.Keys;
    SetSumSame(nodes, n => NodeSum(a, n, f), n => PodsOn(a, pods, n, f));
    NodesPartitionThePods(a, pods, nodes, f);
  }
}
