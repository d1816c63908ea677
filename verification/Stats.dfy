/** `classcache stats`: the deduplicated node list, one smaps sample per node, and the TOTAL row. */
module Stats {
  import opened Prelude
  import opened Smaps
  import SmapsLaws

  // ---------------------------------------------------------------- the node list

  predicate Distinct(s: seq<string>) {
    forall i, j :: 0 <= i < j < |s| ==> s[i] != s[j]
  }

  class NodeSet {
    var names: array<string>
    var n: nat
    /** The largest capacity the allocator grants. */
    const limit: nat

    constructor (limit: nat)
      ensures Valid() && Contents() == [] && fresh(names) && names.Length == 0 && this.limit == limit
    {
      names, n, this.limit := new string[0], 0, limit;
    }

    ghost predicate Valid()
      reads this, names
    {
      n <= names.Length && Distinct(names[..n]) && "" !in names[..n]
    }

    ghost function Contents(): seq<string>
      reads this, names
      requires Valid()
    {
      names[..n]
    }

    /** The next doubling is more than the allocator grants. */
    ghost predicate Exhausted()
      reads this, names
    {
      n == names.Length && limit < if names.Length == 0 then 8 else 2 * names.Length
    }

    /** realloc to a larger capacity. */
    method Grow(cap: nat)
      requires Valid() && n < cap
      modifies this`names
      ensures Valid() && fresh(names) && names.Length == cap && Contents() == old(Contents())
    {
      var bigger := new string[cap];
      var k := 0;
      while k < n
        invariant 0 <= k <= n
        invariant bigger[..k] == names[..k]
        modifies bigger
      {
        bigger[k] := names[k];
        k := k + 1;
      }
      names := bigger;
    }

    method Add(name: Option<string>) returns (rc: int)
      requires Valid()
      modifies this, names
      ensures Valid() && (names == old(names) || fresh(names))
      ensures var fresh' := name.Some? && name.value != "" && name.value !in old(Contents());
              && rc == (if fresh' && old(Exhausted()) then -1 else 0)
              && Contents() == old(Contents()) + (if fresh' && rc == 0 then [name.value] else [])
      ensures old(Exhausted()) ==> Exhausted()
    {
      if name.None? || name.value == "" {
        return 0;
      }
      var i := 0;
      while i < n
        invariant 0 <= i <= n
        invariant name.value !in names[..i]
      {
        if names[i] == name.value {
          assert names[..n][i] == name.value;
          return 0;
        }
        i := i + 1;
      }
      if n == names.Length {
        var cap := if names.Length == 0 then 8 else 2 * names.Length;
        if limit < cap {
          return -1;
        }
        Grow(cap);
      }
      ghost var before := names[..n];
      names[n] := name.value;
      n := n + 1;
      assert names[..n] == before + [name.value];
      return 0;
    }
  }

  /** A workload pod: its node, and what reading its smaps gives. */
  datatype Pod = Pod(node: string, smaps: Option<Totals>)

  /** The pods of every ClassCache; None where listing them failed. */
  type Listing = seq<Option<seq<Pod>>>

  /** The non-empty node names of the pods. */
  function PodNodes(pods: seq<Pod>): set<string> {
    set p <- pods | p.node != "" :: p.node
  }

  function AllNodes(ccs: Listing): set<string> {
    if ccs == [] then {}
    else AllNodes(ccs[..|ccs| - 1]) + match ccs[|ccs| - 1] { case None => {} case Some(pods) => PodNodes(pods) }
  }

  function Names(s: seq<string>): set<string> { set x <- s }

  lemma OneMoreName(s: seq<string>, x: string)
    ensures Names(s + [x]) == Names(s) + {x}
    ensures x in s ==> Names(s) == Names(s) + {x}
  {
    assert x in s ==> x in Names(s);
  }

  /** Nothing but `all` is held, and all of it unless memory ran out. */
  predicate Covers(have: set<string>, all: set<string>, exhausted: bool) {
    have <= all && (have == all || exhausted)
  }

  function NodeOf(p: Pod): set<string> { if p.node == "" then {} else {p.node} }

  /** Every name that was offered is held now, or refused for lack of memory. */
  lemma OneMoreCovered(s: seq<string>, s': seq<string>, all: set<string>, was: bool, exhausted: bool, p: Pod)
    requires Covers(Names(s), all, was) && (was ==> exhausted)
    requires s' == (if p.node == "" || p.node in s || (exhausted && s' == s) then s else s + [p.node])
    ensures Covers(Names(s'), all + NodeOf(p), exhausted)
  {
    hide Names;
    OneMoreName(s, p.node);
  }

  lemma OneMorePod(pods: seq<Pod>, j: nat)
    requires j < |pods|
    ensures PodNodes(pods[..j + 1]) == PodNodes(pods[..j]) + NodeOf(pods[j])
  {
    assert pods[..j + 1] == pods[..j] + [pods[j]];
  }

  lemma NoPods(all: set<string>, pods: seq<Pod>)
    ensures all + PodNodes(pods[..0]) == all
  {
  }

  /** The nodes of one ClassCache's pods, added to the list. */
  method AddPods(nodes: NodeSet, pods: seq<Pod>, ghost all: set<string>)
    requires nodes.Valid() && Covers(Names(nodes.Contents()), all, nodes.Exhausted())
    modifies nodes, nodes.names
    ensures nodes.Valid() && (nodes.names == old(nodes.names) || fresh(nodes.names))
    ensures Covers(Names(nodes.Contents()), all + PodNodes(pods), nodes.Exhausted())
  {
    hide Names, PodNodes, NodeSet.Exhausted, Covers, Distinct;
    NoPods(all, pods);
    var j := 0;
    while j < |pods|
      invariant 0 <= j <= |pods|
      invariant nodes.Valid() && (nodes.names == old(nodes.names) || fresh(nodes.names))
      invariant Covers(Names(nodes.Contents()), all + PodNodes(pods[..j]), nodes.Exhausted())
    {
      ghost var s, was := nodes.Contents(), nodes.Exhausted();
      var rc := nodes.Add(Some(pods[j].node));
      OneMoreCovered(s, nodes.Contents(), all + PodNodes(pods[..j]), was, nodes.Exhausted(), pods[j]);
      OneMorePod(pods, j);
      assert all + PodNodes(pods[..j]) + NodeOf(pods[j]) == all + PodNodes(pods[..j + 1]);
      j := j + 1;
    }
    assert pods[..|pods|] == pods;
  }

  /** The whole node list: no duplicates, and every node that runs a listed pod unless memory ran out. */
  method CollectNodes(ccs: Listing, limit: nat) returns (nodes: NodeSet)
    ensures fresh(nodes) && fresh(nodes.names) && nodes.Valid() && nodes.limit == limit
    ensures Covers(Names(nodes.Contents()), AllNodes(ccs), nodes.Exhausted())
  {
    nodes := new NodeSet(limit);
    var i := 0;
    while i < |ccs|
      invariant 0 <= i <= |ccs|
      invariant fresh(nodes) && fresh(nodes.names) && nodes.Valid() && nodes.limit == limit
      invariant Covers(Names(nodes.Contents()), AllNodes(ccs[..i]), nodes.Exhausted())
    {
      hide Names, PodNodes, NodeSet.Exhausted, Covers;
      assert ccs[..i + 1][..i] == ccs[..i];
      if ccs[i].Some? {
        AddPods(nodes, ccs[i].value, AllNodes(ccs[..i]));
      } else {
        assert AllNodes(ccs[..i + 1]) == AllNodes(ccs[..i]);
      }
      i := i + 1;
    }
    assert ccs[..|ccs|] == ccs;
  }

  // ---------------------------------------------------------------- one sample per node

  /** smaps_accumulate */
  function Added(acc: Totals, t: Totals): Totals {
    Totals(Wrap(acc.rss + t.rss), Wrap(acc.pss + t.pss), Wrap(acc.sharedClean + t.sharedClean),
           Wrap(acc.sharedDirty + t.sharedDirty), Wrap(acc.privateClean + t.privateClean),
           Wrap(acc.privateDirty + t.privateDirty))
  }

  function AddedUp(ts: seq<Totals>): Totals {
    if ts == [] then ZERO else Added(AddedUp(ts[..|ts| - 1]), ts[|ts| - 1])
  }

  lemma AddOne(ts: seq<Totals>, t: Totals)
    ensures AddedUp(ts + [t]) == Added(AddedUp(ts), t)
  {
    assert (ts + [t])[..|ts|] == ts;
  }

  /** The reads that succeed and show an archive. */
  function Kept(samples: seq<Option<Totals>>): seq<Totals> {
    if samples == [] then []
    else
      var r, before := samples[|samples| - 1], Kept(samples[..|samples| - 1]);
      if r.Some? && r.value.rss != 0 then before + [r.value] else before
  }

  function PodsOn(node: string, pods: seq<Pod>): seq<Option<Totals>> {
    if pods == [] then []
    else
      var p, before := pods[|pods| - 1], PodsOn(node, pods[..|pods| - 1]);
      if p.node == node then before + [p.smaps] else before
  }

  function Listed(node: string, ccs: Listing): seq<Option<Totals>> {
    if ccs == [] then []
    else
      var pods, before := ccs[|ccs| - 1], Listed(node, ccs[..|ccs| - 1]);
      if pods.Some? then before + PodsOn(node, pods.value) else before
  }

  lemma {:induction false} KeptSplits(a: seq<Option<Totals>>, b: seq<Option<Totals>>)
    ensures Kept(a + b) == Kept(a) + Kept(b)
  {
    if b == [] {
      assert a + b == a;
    } else {
      assert (a + b)[..|a + b| - 1] == a + b[..|b| - 1];
      KeptSplits(a, b[..|b| - 1]);
    }
  }

  /** What a node's processes say: through docker if that shows any archive, else through its pods. */
  function Sampled(node: string, docker: map<string, seq<Option<Totals>>>, ccs: Listing): seq<Totals> {
    if node in docker && Kept(docker[node]) != [] then Kept(docker[node]) else Kept(Listed(node, ccs))
  }

  datatype Aggregate = Aggregate(totals: Totals, jvms: nat)

  predicate Aggregates(r: Option<Aggregate>, ts: seq<Totals>) {
    r == if ts == [] then None else Some(Aggregate(AddedUp(ts), |ts|))
  }

  method AggregateViaDocker(pids: Option<seq<Option<Totals>>>) returns (r: Option<Aggregate>)
    ensures Aggregates(r, if pids.Some? then Kept(pids.value) else [])
  {
    if pids.None? || pids.value == [] {
      return None;
    }
    var out, jvms, anyOk := ZERO, 0, false;
    var i := 0;
    while i < |pids.value|
      invariant 0 <= i <= |pids.value|
      invariant var ts := Kept(pids.value[..i]); out == AddedUp(ts) && jvms == |ts| && anyOk == (ts != [])
    {
      hide AddedUp, Added;
      assert pids.value[..i + 1][..i] == pids.value[..i];
      var t := pids.value[i];
      if t.Some? {
        AddOne(Kept(pids.value[..i]), t.value);
      }
      i := i + 1;
      if t.None? || t.value.rss == 0 {
        continue;
      }
      out, jvms, anyOk := Added(out, t.value), jvms + 1, true;
    }
    assert pids.value[..|pids.value|] == pids.value;
    return if anyOk then Some(Aggregate(out, jvms)) else None;
  }

  method AggregatePods(node: string, pods: seq<Pod>, out: Totals, jvms: nat, ghost ts: seq<Totals>)
    returns (out': Totals, jvms': nat)
    requires out == AddedUp(ts) && jvms == |ts|
    ensures var all := ts + Kept(PodsOn(node, pods)); out' == AddedUp(all) && jvms' == |all|
  {
    hide AddedUp, Added;
    out', jvms' := out, jvms;
    assert ts + [] == ts;
    var j := 0;
    while j < |pods|
      invariant 0 <= j <= |pods|
      invariant var all := ts + Kept(PodsOn(node, pods[..j])); out' == AddedUp(all) && jvms' == |all|
    {
      var p := pods[j];
      assert pods[..j + 1][..j] == pods[..j];
      KeptSplits(PodsOn(node, pods[..j]), [p.smaps]);
      ghost var all := ts + Kept(PodsOn(node, pods[..j]));
      assert [p.smaps][..0] == [];
      j := j + 1;
      if p.node != node || p.smaps.None? || p.smaps.value.rss == 0 {
        continue;
      }
      AddOne(all, p.smaps.value);
      assert Kept([p.smaps]) == [p.smaps.value];
      assert ts + Kept(PodsOn(node, pods[..j])) == all + [p.smaps.value];
      out', jvms' := Added(out', p.smaps.value), jvms' + 1;
    }
    assert pods[..|pods|] == pods;
  }

  method AggregateViaKubectl(node: string, ccs: Listing) returns (r: Option<Aggregate>)
    ensures Aggregates(r, Kept(Listed(node, ccs)))
  {
    var out, jvms := ZERO, 0;
    var i := 0;
    while i < |ccs|
      invariant 0 <= i <= |ccs|
      invariant var ts := Kept(Listed(node, ccs[..i])); out == AddedUp(ts) && jvms == |ts|
    {
      assert ccs[..i + 1][..i] == ccs[..i];
      if ccs[i].Some? {
        hide AddedUp, Kept, PodsOn;
        KeptSplits(Listed(node, ccs[..i]), PodsOn(node, ccs[i].value));
        out, jvms := AggregatePods(node, ccs[i].value, out, jvms, Kept(Listed(node, ccs[..i])));
      }
      i := i + 1;
    }
    assert ccs[..|ccs|] == ccs;
    return if jvms > 0 then Some(Aggregate(out, jvms)) else None;
  }

  method AggregateNode(node: string, docker: map<string, seq<Option<Totals>>>, ccs: Listing)
    returns (r: Option<Aggregate>)
    ensures Aggregates(r, Sampled(node, docker, ccs))
  {
    r := AggregateViaDocker(if node in docker then Some(docker[node]) else None);
    if r.None? {
      r := AggregateViaKubectl(node, ccs);
    }
  }

  // ---------------------------------------------------------------- rows and the total

  datatype Row = Row(node: string, jvms: nat, rss: nat, pss: nat, saved: nat)

  /** The guarded per-node saving. */
  function Guarded(rss: nat, pss: nat): nat { if rss > pss then rss - pss else 0 }

  function RowOf(node: string, ts: seq<Totals>): Row {
    var t := AddedUp(ts);
    Row(node, |ts|, t.rss, t.pss, Guarded(t.rss, t.pss))
  }

  /** One row for every node that could be sampled, in list order. */
  function Rows(nodes: seq<string>, docker: map<string, seq<Option<Totals>>>, ccs: Listing): seq<Row> {
    if nodes == [] then []
    else
      var node, before := nodes[|nodes| - 1], Rows(nodes[..|nodes| - 1], docker, ccs);
      var ts := Sampled(node, docker, ccs);
      if ts != [] then before + [RowOf(node, ts)] else before
  }

  function SumRss(rows: seq<Row>): nat {
    if rows == [] then 0 else SumRss(rows[..|rows| - 1]) + rows[|rows| - 1].rss
  }

  function SumPss(rows: seq<Row>): nat {
    if rows == [] then 0 else SumPss(rows[..|rows| - 1]) + rows[|rows| - 1].pss
  }

  function SumSaved(rows: seq<Row>): nat {
    if rows == [] then 0 else SumSaved(rows[..|rows| - 1]) + rows[|rows| - 1].saved
  }

  function SumJvms(rows: seq<Row>): nat {
    if rows == [] then 0 else SumJvms(rows[..|rows| - 1]) + rows[|rows| - 1].jvms
  }

  datatype Total = Total(jvms: nat, rss: nat, pss: nat, saved: nat)

  /** The TOTAL row: unsigned sums, and an unguarded unsigned difference. */
  function TotalOf(rows: seq<Row>): Option<Total> {
    var rss, pss := Wrap(SumRss(rows)), Wrap(SumPss(rows));
    if rss > 0 then Some(Total(SumJvms(rows), rss, pss, Wrap(rss + (U64 - pss)))) else None
  }

  lemma OneMoreRow(rows: seq<Row>, r: Row)
    ensures Wrap(SumRss(rows + [r])) == Wrap(Wrap(SumRss(rows)) + r.rss)
    ensures Wrap(SumPss(rows + [r])) == Wrap(Wrap(SumPss(rows)) + r.pss)
    ensures SumJvms(rows + [r]) == SumJvms(rows) + r.jvms
  {
    assert (rows + [r])[..|rows|] == rows;
  }

  lemma NoRows()
    ensures Wrap(SumRss([])) == Wrap(SumPss([])) == SumJvms([]) == 0
  {
  }

  method MemorySharing(nodes: seq<string>, docker: map<string, seq<Option<Totals>>>, ccs: Listing)
    returns (rows: seq<Row>, total: Option<Total>)
    ensures rows == Rows(nodes, docker, ccs)
    ensures total == TotalOf(rows)
  {
    hide AddedUp, Sampled, SumRss, SumPss, SumJvms, Wrap;
    NoRows();
    rows := [];
    var rss, pss, jvms := 0, 0, 0;
    var i := 0;
    while i < |nodes|
      invariant 0 <= i <= |nodes|
      invariant rows == Rows(nodes[..i], docker, ccs)
      invariant rss == Wrap(SumRss(rows)) && pss == Wrap(SumPss(rows)) && jvms == SumJvms(rows)
    {
      assert nodes[..i + 1][..i] == nodes[..i];
      var t := AggregateNode(nodes[i], docker, ccs);
      i := i + 1;
      if t.None? {
        continue;
      }
      var n := t.value.totals;
      var row := Row(nodes[i - 1], t.value.jvms, n.rss, n.pss, if n.rss > n.pss then n.rss - n.pss else 0);
      OneMoreRow(rows, row);
      rows := rows + [row];
      rss, pss, jvms := Wrap(rss + n.rss), Wrap(pss + n.pss), jvms + t.value.jvms;
    }
    assert nodes[..|nodes|] == nodes;
    total := if rss > 0 then Some(Total(jvms, rss, pss, Wrap(rss + (U64 - pss)))) else None;
  }

  lemma {:induction false} NamesAreCounted(s: seq<string>)
    requires Distinct(s)
    ensures |Names(s)| == |s|
  {
    if s != [] {
      var before, x := s[..|s| - 1], s[|s| - 1];
      NamesAreCounted(before);
      OneMoreName(before, x);
      assert s == before + [x];
      assert x !in Names(before);
    }
  }

  lemma {:induction false} SubsetsAreSmaller(a: set<string>, b: set<string>)
    requires a <= b
    ensures |a| <= |b|
  {
    if a != {} {
      var x :| x in a;
      SubsetsAreSmaller(a - {x}, b - {x});
    }
  }

  /** The section of the command: collect the nodes, then sample each of them once. */
  method CmdStats(docker: map<string, seq<Option<Totals>>>, ccs: Listing, limit: nat)
    returns (nodes: seq<string>, rows: seq<Row>, total: Option<Total>)
    ensures Distinct(nodes) && "" !in nodes && Names(nodes) <= AllNodes(ccs)
    ensures 8 <= limit && 2 * |AllNodes(ccs)| <= limit ==> Names(nodes) == AllNodes(ccs)
    ensures rows == Rows(nodes, docker, ccs) && total == TotalOf(rows)
  {
    var list := CollectNodes(ccs, limit);
    nodes := list.names[..list.n];
    NamesAreCounted(nodes);
    SubsetsAreSmaller(Names(nodes), AllNodes(ccs));
    assert |nodes| == list.n && nodes == list.Contents();
    rows, total := MemorySharing(nodes, docker, ccs);
  }

  // ---------------------------------------------------------------- conservation

  predicate Guards(rows: seq<Row>) {
    forall k :: 0 <= k < |rows| ==> rows[k].saved == Guarded(rows[k].rss, rows[k].pss)
  }

  predicate Ordered(rows: seq<Row>) { forall k :: 0 <= k < |rows| ==> rows[k].pss <= rows[k].rss }

  /** How far Pss exceeds Rss, over the rows where it does. */
  function Excess(rows: seq<Row>): nat {
    if rows == [] then 0
    else Excess(rows[..|rows| - 1]) + Guarded(rows[|rows| - 1].pss, rows[|rows| - 1].rss)
  }

  lemma {:induction false} SavingsBalance(rows: seq<Row>)
    requires Guards(rows)
    ensures SumRss(rows) + Excess(rows) == SumPss(rows) + SumSaved(rows)
    ensures Excess(rows) <= SumPss(rows) && SumSaved(rows) <= SumRss(rows)
    ensures Excess(rows) == 0 <==> Ordered(rows)
  {
    if rows != [] {
      var before, r := rows[..|rows| - 1], rows[|rows| - 1];
      SavingsBalance(before);
      assert Ordered(rows) <==> Ordered(before) && r.pss <= r.rss;
    }
  }

  lemma WrapsAway(rss: nat, pss: nat, saved: nat, excess: nat)
    requires rss + excess == pss + saved
    ensures Wrap(Wrap(rss) + (U64 - Wrap(pss))) == Wrap(saved) <==> Wrap(excess) == 0
  {
    var a, b := rss / U64, pss / U64;
    assert Wrap(rss) + (U64 - Wrap(pss)) == saved - excess + (b - a + 1) * U64;
    SameRemainder(Wrap(rss) + (U64 - Wrap(pss)), saved, excess, b - a + 1);
  }

  lemma SameRemainder(d: nat, saved: nat, excess: nat, k: int)
    requires d == saved - excess + k * U64
    ensures Wrap(d) == Wrap(saved) <==> Wrap(excess) == 0
  {
    var q, r := excess / U64, Wrap(excess);
    assert d == saved - r + (k - q) * U64;
  }

  lemma SmallNumbersStay(a: nat)
    requires a < U64
    ensures Wrap(a) == a
  {
  }

  /** The unguarded TOTAL against the guarded rows: equal modulo 2^64 exactly when the excess vanishes there;
    * so without overflow, equal exactly when no node shows more Pss than Rss. */
  lemma TheTotalConservesSavings(rows: seq<Row>)
    requires Guards(rows) && TotalOf(rows).Some?
    ensures TotalOf(rows).value.saved == Wrap(SumSaved(rows)) <==> Wrap(Excess(rows)) == 0
    ensures SumRss(rows) < U64 && SumPss(rows) < U64 ==>
              (TotalOf(rows).value.saved == SumSaved(rows) <==> Ordered(rows))
    ensures Ordered(rows) && SumRss(rows) < U64 ==> TotalOf(rows).value.saved == SumSaved(rows)
  {
    SavingsBalance(rows);
    var rss, pss, saved, excess := SumRss(rows), SumPss(rows), SumSaved(rows), Excess(rows);
    hide SumRss, SumPss, SumSaved, Excess, SumJvms, Ordered, Guards, Wrap;
    WrapsAway(rss, pss, saved, excess);
    SmallNumbersStay(0);
    if rss < U64 {
      SmallNumbersStay(saved);
      if pss < U64 {
        SmallNumbersStay(excess);
      }
    }
  }

  // ---------------------------------------------------------------- down to the samples and the mappings

  function SampledRss(ts: seq<Totals>): nat {
    if ts == [] then 0 else SampledRss(ts[..|ts| - 1]) + ts[|ts| - 1].rss
  }

  function SampledPss(ts: seq<Totals>): nat {
    if ts == [] then 0 else SampledPss(ts[..|ts| - 1]) + ts[|ts| - 1].pss
  }

  /** No process shows more Pss than Rss. */
  predicate Sane(ts: seq<Totals>) { forall k :: 0 <= k < |ts| ==> ts[k].pss <= ts[k].rss }

  /** Everything that is sampled, node after node. */
  function AllSamples(nodes: seq<string>, docker: map<string, seq<Option<Totals>>>, ccs: Listing): seq<Totals> {
    if nodes == [] then []
    else AllSamples(nodes[..|nodes| - 1], docker, ccs) + Sampled(nodes[|nodes| - 1], docker, ccs)
  }

  lemma {:induction false} AddedUpIsTheSum(ts: seq<Totals>)
    requires Sane(ts) && SampledRss(ts) < U64
    ensures AddedUp(ts).rss == SampledRss(ts) && AddedUp(ts).pss == SampledPss(ts) <= SampledRss(ts)
  {
    if ts != [] {
      AddedUpIsTheSum(ts[..|ts| - 1]);
    }
  }

  lemma {:induction false} SamplesSplit(a: seq<Totals>, b: seq<Totals>)
    ensures SampledRss(a + b) == SampledRss(a) + SampledRss(b)
    ensures SampledPss(a + b) == SampledPss(a) + SampledPss(b)
    ensures Sane(a + b) ==> Sane(a) && Sane(b)
  {
    if b == [] {
      assert a + b == a;
    } else {
      assert (a + b)[..|a + b| - 1] == a + b[..|b| - 1];
      SamplesSplit(a, b[..|b| - 1]);
      assert (a + b)[|a + b| - 1] == b[|b| - 1];
    }
  }

  lemma GuardedRow(rows: seq<Row>, r: Row)
    requires Guards(rows) && Ordered(rows) && r.saved == Guarded(r.rss, r.pss) && r.pss <= r.rss
    ensures Guards(rows + [r]) && Ordered(rows + [r])
    ensures SumRss(rows + [r]) == SumRss(rows) + r.rss && SumPss(rows + [r]) == SumPss(rows) + r.pss
  {
    assert (rows + [r])[..|rows|] == rows;
  }

  lemma NothingSampled(docker: map<string, seq<Option<Totals>>>, ccs: Listing)
    ensures SampledRss([]) == SampledPss([]) == SumRss([]) == SumPss([]) == 0 && Guards([]) && Ordered([])
    ensures Rows([], docker, ccs) == [] && AllSamples([], docker, ccs) == []
  {
  }

  lemma LastNode(nodes: seq<string>, docker: map<string, seq<Option<Totals>>>, ccs: Listing)
    requires nodes != []
    ensures var before, node := nodes[..|nodes| - 1], nodes[|nodes| - 1];
            var rows, ts := Rows(before, docker, ccs), Sampled(node, docker, ccs);
            && AllSamples(nodes, docker, ccs) == AllSamples(before, docker, ccs) + ts
            && Rows(nodes, docker, ccs) == if ts != [] then rows + [RowOf(node, ts)] else rows
  {
  }

  lemma {:induction false} RowsShowTheSamples(
    nodes: seq<string>, docker: map<string, seq<Option<Totals>>>, ccs: Listing)
    requires var all := AllSamples(nodes, docker, ccs); Sane(all) && SampledRss(all) < U64
    ensures var all, rows := AllSamples(nodes, docker, ccs), Rows(nodes, docker, ccs);
            && Guards(rows) && Ordered(rows)
            && SumRss(rows) == SampledRss(all) && SumPss(rows) == SampledPss(all)
  {
    hide Sampled, AddedUp, Sane, SampledRss, SampledPss, SumRss, SumPss, Guards, Ordered, Guarded, Rows, AllSamples;
    NothingSampled(docker, ccs);
    if nodes != [] {
      var before, node := nodes[..|nodes| - 1], nodes[|nodes| - 1];
      var ts := Sampled(node, docker, ccs);
      LastNode(nodes, docker, ccs);
      SamplesSplit(AllSamples(before, docker, ccs), ts);
      RowsShowTheSamples(before, docker, ccs);
      AddedUpIsTheSum(ts);
      GuardedRow(Rows(before, docker, ccs), RowOf(node, ts));
    }
  }

  /** When no process shows more Pss than Rss and the sums fit, the printed TOTAL is the memory saved over every
    * sampled process, and the rows add up to it. */
  lemma TheTotalIsWhatTheSamplesSave(
    nodes: seq<string>, docker: map<string, seq<Option<Totals>>>, ccs: Listing)
    requires var all := AllSamples(nodes, docker, ccs); Sane(all) && SampledRss(all) < U64
    requires TotalOf(Rows(nodes, docker, ccs)).Some?
    ensures var all, rows := AllSamples(nodes, docker, ccs), Rows(nodes, docker, ccs);
            TotalOf(rows).value.saved == SumSaved(rows) == SampledRss(all) - SampledPss(all)
  {
    hide AllSamples, Rows, SumRss, SumPss, SumSaved, SampledRss, SampledPss, TotalOf;
    var rows := Rows(nodes, docker, ccs);
    RowsShowTheSamples(nodes, docker, ccs);
    TheTotalConservesSavings(rows);
    SavingsBalance(rows);
  }

  /** TOTAL counts the sampled processes. */
  lemma {:induction false} JvmsAreCounted(nodes: seq<string>, docker: map<string, seq<Option<Totals>>>, ccs: Listing)
    ensures SumJvms(Rows(nodes, docker, ccs)) == |AllSamples(nodes, docker, ccs)|
    ensures var rows := Rows(nodes, docker, ccs);
            TotalOf(rows).Some? ==> TotalOf(rows).value.jvms == |AllSamples(nodes, docker, ccs)|
  {
    hide Sampled, AddedUp, SumRss, SumPss, Wrap;
    if nodes != [] {
      var before, node := nodes[..|nodes| - 1], nodes[|nodes| - 1];
      JvmsAreCounted(before, docker, ccs);
      var rows := Rows(before, docker, ccs);
      assert (rows + [RowOf(node, Sampled(node, docker, ccs))])[..|rows|] == rows;
    }
  }

  // ---------------------------------------------------------------- every pod once

  /** Two states of the cluster that list the same pods on the same nodes and differ at most in what pods elsewhere
    * would say. */
  ghost predicate SameOn(node: string, a: seq<Pod>, b: seq<Pod>) {
    && |a| == |b|
    && forall k :: 0 <= k < |a| ==> a[k].node == b[k].node && (a[k].node == node ==> a[k].smaps == b[k].smaps)
  }

  ghost predicate SameListingOn(node: string, a: Listing, b: Listing) {
    && |a| == |b|
    && forall k :: 0 <= k < |a| ==>
         if a[k].Some? then b[k].Some? && SameOn(node, a[k].value, b[k].value) else b[k].None?
  }

  lemma {:induction false} PodsElsewhereDoNotCount(node: string, a: seq<Pod>, b: seq<Pod>)
    requires SameOn(node, a, b)
    ensures PodsOn(node, a) == PodsOn(node, b)
  {
    if a != [] {
      var n := |a| - 1;
      assert a[n].node == b[n].node;
      PodsElsewhereDoNotCount(node, a[..n], b[..n]);
    }
  }

  /** What pods on other nodes say makes no difference to a node's row. */
  lemma {:induction false} ARowIsItsNodesOwn(
    node: string, docker: map<string, seq<Option<Totals>>>, a: Listing, b: Listing)
    requires SameListingOn(node, a, b)
    ensures Listed(node, a) == Listed(node, b) && Sampled(node, docker, a) == Sampled(node, docker, b)
  {
    hide SameOn, PodsOn, Kept;
    if a != [] {
      var n := |a| - 1;
      assert if a[n].Some? then b[n].Some? && SameOn(node, a[n].value, b[n].value) else b[n].None?;
      ARowIsItsNodesOwn(node, docker, a[..n], b[..n]);
      if a[n].Some? {
        PodsElsewhereDoNotCount(node, a[n].value, b[n].value);
      }
    }
  }

  /** docker shows an archive on the node. */
  predicate Speaks(docker: map<string, seq<Option<Totals>>>, node: string) {
    node in docker && exists k :: 0 <= k < |docker[node]| && docker[node][k].Some? && docker[node][k].value.rss != 0
  }

  /** The reads through docker, of every node for which it speaks. */
  function DockerReads(nodes: seq<string>, docker: map<string, seq<Option<Totals>>>): multiset<Option<Totals>> {
    if nodes == [] then multiset{}
    else
      var node := nodes[|nodes| - 1];
      DockerReads(nodes[..|nodes| - 1], docker) + if Speaks(docker, node) then multiset(docker[node]) else multiset{}
  }

  /** Every scheduled pod once, unless docker speaks for its node. */
  function PodReads(docker: map<string, seq<Option<Totals>>>, pods: seq<Pod>): multiset<Option<Totals>> {
    if pods == [] then multiset{}
    else
      var p := pods[|pods| - 1];
      PodReads(docker, pods[..|pods| - 1])
      + if p.node != "" && !Speaks(docker, p.node) then multiset{p.smaps} else multiset{}
  }

  function AllPodReads(docker: map<string, seq<Option<Totals>>>, ccs: Listing): multiset<Option<Totals>> {
    if ccs == [] then multiset{}
    else
      var pods := ccs[|ccs| - 1];
      AllPodReads(docker, ccs[..|ccs| - 1]) + if pods.Some? then PodReads(docker, pods.value) else multiset{}
  }

  /** The reads through pods, node by node. */
  function ListedOn(nodes: seq<string>, docker: map<string, seq<Option<Totals>>>, ccs: Listing)
    : multiset<Option<Totals>>
  {
    if nodes == [] then multiset{}
    else
      var node := nodes[|nodes| - 1];
      ListedOn(nodes[..|nodes| - 1], docker, ccs)
      + if Speaks(docker, node) then multiset{} else multiset(Listed(node, ccs))
  }

  lemma OneReadMore(node: string, ccs: Listing, pods: seq<Pod>, p: Pod)
    ensures Listed(node, ccs + [Some(pods + [p])])
         == Listed(node, ccs + [Some(pods)]) + if p.node == node then [p.smaps] else []
  {
    assert (ccs + [Some(pods + [p])])[..|ccs|] == ccs && (ccs + [Some(pods)])[..|ccs|] == ccs;
    assert (pods + [p])[..|pods|] == pods;
  }

  lemma {:induction false} OnePodMore(
    nodes: seq<string>, docker: map<string, seq<Option<Totals>>>, ccs: Listing, pods: seq<Pod>, p: Pod)
    requires Distinct(nodes)
    ensures ListedOn(nodes, docker, ccs + [Some(pods + [p])])
         == ListedOn(nodes, docker, ccs + [Some(pods)])
            + if p.node in nodes && !Speaks(docker, p.node) then multiset{p.smaps} else multiset{}
  {
    hide Speaks, Listed;
    if nodes != [] {
      var n := |nodes| - 1;
      var node := nodes[n];
      OnePodMore(nodes[..n], docker, ccs, pods, p);
      OneReadMore(node, ccs, pods, p);
      assert nodes == nodes[..n] + [node];
      assert node !in nodes[..n];
    }
  }

  lemma {:induction false} NoPodsMore(
    nodes: seq<string>, docker: map<string, seq<Option<Totals>>>, ccs: Listing, none: Option<seq<Pod>>)
    requires none.None? || none.value == []
    ensures ListedOn(nodes, docker, ccs + [none]) == ListedOn(nodes, docker, ccs)
  {
    hide Speaks;
    if nodes != [] {
      NoPodsMore(nodes[..|nodes| - 1], docker, ccs, none);
      assert (ccs + [none])[..|ccs|] == ccs;
    }
  }

  lemma {:induction false} OneMoreListing(
    nodes: seq<string>, docker: map<string, seq<Option<Totals>>>, ccs: Listing, pods: seq<Pod>)
    requires Distinct(nodes) && "" !in nodes && PodNodes(pods) <= Names(nodes)
    ensures ListedOn(nodes, docker, ccs + [Some(pods)]) == ListedOn(nodes, docker, ccs) + PodReads(docker, pods)
  {
    hide Speaks, ListedOn;
    if pods == [] {
      NoPodsMore(nodes, docker, ccs, Some(pods));
    } else {
      var before, p := pods[..|pods| - 1], pods[|pods| - 1];
      assert pods == before + [p];
      OneMoreListing(nodes, docker, ccs, before);
      OnePodMore(nodes, docker, ccs, before, p);
      assert p.node != "" ==> p.node in Names(nodes);
    }
  }

  lemma {:induction false} NodesPartitionThePods(
    nodes: seq<string>, docker: map<string, seq<Option<Totals>>>, ccs: Listing)
    requires Distinct(nodes) && "" !in nodes && AllNodes(ccs) <= Names(nodes)
    ensures ListedOn(nodes, docker, ccs) == AllPodReads(docker, ccs)
  {
    if ccs == [] {
      NothingListed(nodes, docker);
    } else {
      hide Speaks, ListedOn, Names;
      var before, last := ccs[..|ccs| - 1], ccs[|ccs| - 1];
      assert ccs == before + [last];
      NodesPartitionThePods(nodes, docker, before);
      if last.Some? {
        OneMoreListing(nodes, docker, before, last.value);
      } else {
        NoPodsMore(nodes, docker, before, last);
      }
    }
  }

  lemma {:induction false} NothingListed(nodes: seq<string>, docker: map<string, seq<Option<Totals>>>)
    ensures ListedOn(nodes, docker, []) == multiset{}
  {
    if nodes != [] {
      NothingListed(nodes[..|nodes| - 1], docker);
    }
  }

  lemma {:induction false} KeptCounts(rs: seq<Option<Totals>>, t: Totals)
    ensures multiset(Kept(rs))[t] == if t.rss == 0 then 0 else multiset(rs)[Some(t)]
    ensures Kept(rs) != [] <==> exists k :: 0 <= k < |rs| && rs[k].Some? && rs[k].value.rss != 0
  {
    if rs != [] {
      var n := |rs| - 1;
      KeptCounts(rs[..n], t);
      assert rs == rs[..n] + [rs[n]];
    }
  }

  lemma {:induction false} SamplesAreReads(
    nodes: seq<string>, docker: map<string, seq<Option<Totals>>>, ccs: Listing, t: Totals)
    ensures multiset(AllSamples(nodes, docker, ccs))[t]
         == if t.rss == 0 then 0 else DockerReads(nodes, docker)[Some(t)] + ListedOn(nodes, docker, ccs)[Some(t)]
  {
    hide Listed, Kept;
    if nodes != [] {
      var node := nodes[|nodes| - 1];
      SamplesAreReads(nodes[..|nodes| - 1], docker, ccs, t);
      KeptCounts(Listed(node, ccs), t);
      if node in docker {
        KeptCounts(docker[node], t);
      }
    }
  }

  /** The report counts every process once: each read that shows an archive, through docker on the nodes for which it
    * speaks, and otherwise of each scheduled pod, and nothing else. */
  lemma EveryPodIsReportedOnce(
    nodes: seq<string>, docker: map<string, seq<Option<Totals>>>, ccs: Listing, t: Totals)
    requires Distinct(nodes) && "" !in nodes && AllNodes(ccs) <= Names(nodes)
    ensures multiset(AllSamples(nodes, docker, ccs))[t]
         == if t.rss == 0 then 0 else DockerReads(nodes, docker)[Some(t)] + AllPodReads(docker, ccs)[Some(t)]
  {
    SamplesAreReads(nodes, docker, ccs, t);
    NodesPartitionThePods(nodes, docker, ccs);
  }

  // ---------------------------------------------------------------- from the mappings on

  lemma {:induction false} MappingsKeepOrder(ms: seq<SmapsLaws.Mapping>, needle: Option<string>)
    requires forall m <- ms :: SmapsLaws.Of(m.fields, Pss) <= SmapsLaws.Of(m.fields, Rss)
    ensures SmapsLaws.Sum(ms, Pss, needle) <= SmapsLaws.Sum(ms, Rss, needle)
  {
    if ms != [] {
      MappingsKeepOrder(ms[..|ms| - 1], needle);
    }
  }

  /** Pss at most Rss in every mapping gives the same for the totals read from the dump. */
  lemma ReadingADumpKeepsOrder(ms: seq<SmapsLaws.Mapping>)
    requires SmapsLaws.Sum(ms, Rss, SmapsLaws.JSA) < U64
    requires forall m <- ms :: SmapsLaws.Of(m.fields, Pss) <= SmapsLaws.Of(m.fields, Rss)
    ensures Sane([SmapsLaws.CTotals(SmapsLaws.Dump(ms), SmapsLaws.JSA)])
  {
    hide SmapsLaws.CTotals, SmapsLaws.Sum, SmapsLaws.Dump, Wrap;
    MappingsKeepOrder(ms, SmapsLaws.JSA);
    SmapsLaws.CScannerIsTheBlockSum(ms, SmapsLaws.JSA, Rss);
    SmapsLaws.CScannerIsTheBlockSum(ms, SmapsLaws.JSA, Pss);
    SmallNumbersStay(SmapsLaws.Sum(ms, Rss, SmapsLaws.JSA));
    SmallNumbersStay(SmapsLaws.Sum(ms, Pss, SmapsLaws.JSA));
  }

  /** A read that came from a dump with Pss at most Rss in every mapping, and whose Rss fits. */
  ghost predicate OrderedRead(r: Option<Totals>) {
    r.Some? ==>
      exists ms :: OrderedDump(ms) && r.value == SmapsLaws.CTotals(SmapsLaws.Dump(ms), SmapsLaws.JSA)
  }

  ghost predicate OrderedDump(ms: seq<SmapsLaws.Mapping>) {
    && SmapsLaws.Sum(ms, Rss, SmapsLaws.JSA) < U64
    && forall m <- ms :: SmapsLaws.Of(m.fields, Pss) <= SmapsLaws.Of(m.fields, Rss)
  }

  ghost predicate OrderedReads(rs: seq<Option<Totals>>) {
    forall k :: 0 <= k < |rs| ==> OrderedRead(rs[k])
  }

  /** Everything there is to read. */
  ghost predicate OrderedWorld(docker: map<string, seq<Option<Totals>>>, ccs: Listing) {
    && (forall node <- docker :: OrderedReads(docker[node]))
    && (forall k :: 0 <= k < |ccs| && ccs[k].Some? ==> OrderedPods(ccs[k].value))
  }

  ghost predicate OrderedPods(pods: seq<Pod>) {
    forall k :: 0 <= k < |pods| ==> OrderedRead(pods[k].smaps)
  }

  lemma OrderedReadsAreSane(r: Option<Totals>)
    requires OrderedRead(r) && r.Some?
    ensures Sane([r.value])
  {
    var ms :| OrderedDump(ms) && r.value == SmapsLaws.CTotals(SmapsLaws.Dump(ms), SmapsLaws.JSA);
    ReadingADumpKeepsOrder(ms);
  }

  lemma {:induction false} KeptAreSane(rs: seq<Option<Totals>>)
    requires OrderedReads(rs)
    ensures Sane(Kept(rs))
  {
    hide OrderedRead;
    if rs != [] {
      var r := rs[|rs| - 1];
      KeptAreSane(rs[..|rs| - 1]);
      if r.Some? {
        OrderedReadsAreSane(r);
        assert [r.value][0].pss <= [r.value][0].rss;
      }
    }
  }

  lemma {:induction false} PodsAreOrdered(node: string, pods: seq<Pod>)
    requires OrderedPods(pods)
    ensures OrderedReads(PodsOn(node, pods))
  {
    hide OrderedRead;
    if pods != [] {
      PodsAreOrdered(node, pods[..|pods| - 1]);
      assert OrderedRead(pods[|pods| - 1].smaps);
    }
  }

  lemma {:induction false} ListedAreOrdered(node: string, ccs: Listing)
    requires forall k :: 0 <= k < |ccs| && ccs[k].Some? ==> OrderedPods(ccs[k].value)
    ensures OrderedReads(Listed(node, ccs))
  {
    hide OrderedRead, OrderedPods;
    if ccs != [] {
      var last := ccs[|ccs| - 1];
      ListedAreOrdered(node, ccs[..|ccs| - 1]);
      if last.Some? {
        PodsAreOrdered(node, last.value);
      }
    }
  }

  lemma {:induction false} AllSamplesAreSane(nodes: seq<string>, docker: map<string, seq<Option<Totals>>>, ccs: Listing)
    requires OrderedWorld(docker, ccs)
    ensures Sane(AllSamples(nodes, docker, ccs))
  {
    hide OrderedReads, OrderedPods, Kept;
    if nodes != [] {
      var node := nodes[|nodes| - 1];
      AllSamplesAreSane(nodes[..|nodes| - 1], docker, ccs);
      if node in docker {
        KeptAreSane(docker[node]);
      }
      ListedAreOrdered(node, ccs);
      KeptAreSane(Listed(node, ccs));
    }
  }

  /** Conservation from the mappings up to the report: if Pss is at most Rss in every mapping of every dump and the
    * sums fit, then for any list of nodes, the one CmdStats collects included, TOTAL is the sum of the rows and the
    * sum over all processes of what their archive mappings save. */
  lemma TheReportConservesSavings(nodes: seq<string>, docker: map<string, seq<Option<Totals>>>, ccs: Listing)
    requires OrderedWorld(docker, ccs) && SampledRss(AllSamples(nodes, docker, ccs)) < U64
    requires TotalOf(Rows(nodes, docker, ccs)).Some?
    ensures var all, rows := AllSamples(nodes, docker, ccs), Rows(nodes, docker, ccs);
            TotalOf(rows).value.saved == SumSaved(rows) == SampledRss(all) - SampledPss(all)
  {
    AllSamplesAreSane(nodes, docker, ccs);
    TheTotalIsWhatTheSamplesSave(nodes, docker, ccs);
  }
}
