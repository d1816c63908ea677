/** Exactly which faults, and which starts, each safety property survives. */
module Tolerance {
  import opened Prelude
  import opened Cluster
  import Lineage
  import Exclusion
  import Runs

  // ---------------------------------------------------------------- hash lineage

  /** Every run from `s` with no other faults than `tolerated` ends with genuine digests only. */
  ghost predicate KeepsLineage(c: Config, s: State, tolerated: set<Fault>) {
    forall ls :: Valid(c, s, ls) && RunFaults(c, s, ls) <= tolerated ==>
      Lineage.DigestsTraced(c, Exec(c, s, ls), s.born + Lineage.Built(ls))
  }

  lemma CleanRunsKeepLineage(c: Config, s: State, tolerated: set<Fault>)
    requires Lineage.GoodHash(c) && Lineage.Start(c, s) && !Lineage.Exposed(s) && tolerated <= {StaleRelease}
    ensures KeepsLineage(c, s, tolerated)
  {
    forall ls | Valid(c, s, ls) && RunFaults(c, s, ls) <= tolerated
      ensures Lineage.DigestsTraced(c, Exec(c, s, ls), s.born + Lineage.Built(ls))
    {
      Lineage.StoredDigestsAreBorn(c, s, ls, |ls|);
      assert ls[..|ls|] == ls;
    }
  }

  lemma AForeignDigestIsNotTraced(
    c: Config, s: State, ls: seq<Label>, t: State, faults: set<Fault>, y: Bytes, tolerated: set<Fault>)
    requires Lineage.GoodHash(c) && Path(c, s, ls, t, faults) && faults <= tolerated
    requires Runs.ForeignDigest(c, t, y)
    ensures !KeepsLineage(c, s, tolerated)
  {
    Lineage.BornIsFoundOrBuilt(c, s, ls);
    assert c.H(y) != "";
  }

  /** A run from an ordinary start that loses provenance to this one fault. */
  lemma EachFaultBreaksLineage(c: Config, fault: Fault, i: Endpoint, j: Endpoint, x: Bytes, y: Bytes)
    returns (s: State, ls: seq<Label>, t: State)
    requires Lineage.GoodHash(c) && 0 <= c.ttl && i != j && c.H(x) != c.H(y) && |y| > 0 && fault != StaleRelease
    ensures Lineage.Init(c, s) && Path(c, s, ls, t, {fault}) && Runs.ForeignDigest(c, t, y)
  {
    match fault
    case ShaUnread => s, ls, t := Runs.AnUnreadDigestBreaksLineage(c, i, j, x, y);
    case KilledMidPull => s, ls, t := Runs.AKillMidPullBreaksLineage(c, i, j, x, y);
    case NotRemoved => s, ls, t := Runs.AnUnremovedBodyBreaksLineage(c, i, j, x, y);
  }

  /** Hash lineage survives exactly the faults that do not touch files: it holds of all runs from all ordinary
    * starts if and only if stored digests are always read, nobody is killed in mid-pull and rejected bodies are
    * always removed. */
  lemma LineageToleratesExactlyStaleReleases(
    c: Config, tolerated: set<Fault>, i: Endpoint, j: Endpoint, x: Bytes, y: Bytes)
    requires Lineage.GoodHash(c) && 0 <= c.ttl && i != j && c.H(x) != c.H(y) && |y| > 0
    ensures (forall s :: Lineage.Init(c, s) ==> KeepsLineage(c, s, tolerated)) <==> tolerated <= {StaleRelease}
  {
    if tolerated <= {StaleRelease} {
      forall s | Lineage.Init(c, s)
        ensures KeepsLineage(c, s, tolerated)
      {
        CleanRunsKeepLineage(c, s, tolerated);
      }
    } else {
      var fault :| fault in tolerated && fault != StaleRelease;
      var s, ls, t := EachFaultBreaksLineage(c, fault, i, j, x, y);
      AForeignDigestIsNotTraced(c, s, ls, t, {fault}, y, tolerated);
    }
  }

  /** ... and of the starts it survives exactly those where nobody may pull through an entry without a digest:
    * for every start, as soon as some content is not accounted for from the beginning. */
  lemma LineageSurvivesExactlyUnexposedStarts(c: Config, s: State, y: Bytes, tolerated: set<Fault>)
    requires Lineage.GoodHash(c) && Lineage.Start(c, s) && !Lineage.Traced(c, s.born, c.H(y))
    requires tolerated <= {StaleRelease}
    ensures KeepsLineage(c, s, tolerated) <==> !Lineage.Exposed(s)
  {
    if Lineage.Exposed(s) {
      var ls, t := Runs.ALegacyEntryBreaksLineage(c, s, y);
      AForeignDigestIsNotTraced(c, s, ls, t, {}, y, tolerated);
    } else {
      CleanRunsKeepLineage(c, s, tolerated);
    }
  }

  // ---------------------------------------------------------------- mutual exclusion

  /** Every run from `s` with no other faults than `tolerated` ends with at most one lease holder. */
  ghost predicate KeepsExclusion(c: Config, s: State, tolerated: set<Fault>) {
    forall ls :: Valid(c, s, ls) && RunFaults(c, s, ls) <= tolerated ==> OneHolder(Exec(c, s, ls))
  }

  ghost predicate OneHolder(t: State) {
    forall i, j :: Exclusion.HoldsLease(t, i) && Exclusion.HoldsLease(t, j) ==> i == j
  }

  lemma FreshRunsKeepExclusion(c: Config, s: State, tolerated: set<Fault>)
    requires Lineage.Start(c, s) && StaleRelease !in tolerated
    ensures KeepsExclusion(c, s, tolerated)
  {
    forall ls | Valid(c, s, ls) && RunFaults(c, s, ls) <= tolerated
      ensures OneHolder(Exec(c, s, ls))
    {
      forall i, j | Exclusion.HoldsLease(Exec(c, s, ls), i) && Exclusion.HoldsLease(Exec(c, s, ls), j)
        ensures i == j
      {
        Exclusion.AtMostOneLeaseHolder(c, s, ls, i, j);
      }
    }
  }

  /** Mutual exclusion survives every fault except one: it holds of all runs from all starts if and only if no
    * release of a dead process lands while its endpoint builds again. */
  lemma ExclusionToleratesAllButStaleReleases(c: Config, tolerated: set<Fault>, i: Endpoint, j: Endpoint)
    requires 0 < c.ttl && i != j
    ensures (forall s :: Lineage.Start(c, s) ==> KeepsExclusion(c, s, tolerated)) <==> StaleRelease !in tolerated
  {
    if StaleRelease in tolerated {
      var s := Runs.Empty(i, j);
      var ls, t := Runs.AStaleReleaseBreaksExclusion(c, s, i, j);
      assert !OneHolder(t);
      assert !KeepsExclusion(c, s, tolerated);
    } else {
      forall s | Lineage.Start(c, s)
        ensures KeepsExclusion(c, s, tolerated)
      {
        FreshRunsKeepExclusion(c, s, tolerated);
      }
    }
  }
}
