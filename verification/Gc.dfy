/** The collection of the config ConfigMaps that nothing can still mount. */
module Gc {
  import opened Base
  import ConfigStore

  /** A ConfigMap's metadata. isRevision: it carries the revision label. */
  datatype Meta = Meta(name: string, uid: nat, controller: Option<nat>, isRevision: bool, created: int)

  const HISTORY_LIMIT: nat := 3

  /** a sorts before b: the newer first, then by name. */
  predicate Newer(a: Meta, b: Meta) {
    a.created > b.created || (a.created == b.created && Less(a.name, b.name))
  }

  lemma NewerIsAStrictOrder(a: Meta, b: Meta)
    ensures a.name != b.name ==> (Newer(a, b) <==> !Newer(b, a))
    ensures !Newer(a, a)
  {
    LessIsTotal(a.name, b.name);
    LessIsAsymmetric(a.name, b.name);
  }

  lemma NewerIsTransitive(a: Meta, b: Meta, c: Meta)
    requires Newer(a, b) && Newer(b, c)
    ensures Newer(a, c)
  {
    if Less(a.name, b.name) && Less(b.name, c.name) { LessIsTransitive(a.name, b.name, c.name); }
  }

  // ---- What is collected ----

  /** What a collection is run for: the gateway, the ConfigMap of its applied
      config and the one its Deployment mounts. */
  datatype Use = Use(gw: ConfigStore.Gateway, inUse: string, mounted: string)
  {
    predicate Considers(m: Meta) {
      m.controller == Some(gw.uid) && m.name != mounted
    }

    /** An older revision: subject to the history. */
    predicate IsOther(m: Meta) {
      Considers(m) && m.isRevision && m.name != inUse
    }

    /** The ConfigMap an earlier version kept under the gateway's own name. */
    predicate IsLegacy(m: Meta) {
      Considers(m) && !m.isRevision && m.name == gw.name && m.name != inUse
    }
  }

  predicate DistinctNames(cms: set<Meta>) {
    forall a, b :: a in cms && b in cms && a.name == b.name ==> a == b
  }

  /** The other revisions newer than m. */
  function NewerOthers(use: Use, cms: set<Meta>, m: Meta): set<Meta> {
    set o | o in cms && use.IsOther(o) && Newer(o, m)
  }

  /** m is in the history: with inUse, at most HISTORY_LIMIT revisions are. */
  predicate InHistory(use: Use, cms: set<Meta>, m: Meta) {
    use.IsOther(m) && |NewerOthers(use, cms, m)| < HISTORY_LIMIT - 1
  }

  /** Only a live ReplicaSet could still keep m. */
  predicate IsCandidate(use: Use, cms: set<Meta>, m: Meta) {
    m in cms && (use.IsLegacy(m) || (use.IsOther(m) && !InHistory(use, cms, m)))
  }

  /** The gateway controls m, and neither its applied config nor its Deployment
      is there. */
  predicate IsSpare(use: Use, m: Meta) {
    m.controller == Some(use.gw.uid) && m.name != use.inUse && m.name != use.mounted
  }

  /** Two spare revisions were created no earlier than m. */
  ghost predicate TwoNoOlder(use: Use, cms: set<Meta>, m: Meta, a: Meta, b: Meta) {
    && a in cms && b in cms && a != b && a != m && b != m
    && IsSpare(use, a) && IsSpare(use, b) && a.isRevision && b.isRevision
    && a.created >= m.created && b.created >= m.created
  }

  /** What may be collected is spare, and either the ConfigMap of an earlier
      version or a revision that two others are no older than; and a spare
      revision that two others are newer than may be. */
  lemma CandidatesAreOld(use: Use, cms: set<Meta>, m: Meta)
    requires m in cms
    ensures IsCandidate(use, cms, m) ==> IsSpare(use, m)
    ensures IsCandidate(use, cms, m) && !m.isRevision ==> m.name == use.gw.name
    ensures IsCandidate(use, cms, m) && m.isRevision ==> exists a, b :: TwoNoOlder(use, cms, m, a, b)
    ensures IsSpare(use, m) && !m.isRevision && m.name == use.gw.name ==> IsCandidate(use, cms, m)
    ensures IsSpare(use, m) && m.isRevision ==> forall a, b ::
      TwoNoOlder(use, cms, m, a, b) && a.created > m.created && b.created > m.created ==> IsCandidate(use, cms, m)
  {
    var newer := NewerOthers(use, cms, m);
    if IsCandidate(use, cms, m) && m.isRevision {
      NewerIsAStrictOrder(m, m);
      var a :| a in newer;
      assert |newer - {a}| > 0;
      var b :| b in newer - {a};
      assert TwoNoOlder(use, cms, m, a, b);
    }
    if a, b :| IsSpare(use, m) && m.isRevision && TwoNoOlder(use, cms, m, a, b)
               && a.created > m.created && b.created > m.created {
      assert {a, b} <= newer;
      SubsetIsSmaller({a, b}, newer);
    }
  }

  /** Every kept revision was created no earlier than every collected one. */
  lemma KeptAreNoOlder(use: Use, cms: set<Meta>, kept: Meta, collected: Meta)
    requires DistinctNames(cms) && kept in cms && collected in cms
    requires IsSpare(use, kept) && kept.isRevision && !IsCandidate(use, cms, kept)
    requires collected.isRevision && IsCandidate(use, cms, collected)
    ensures kept.created >= collected.created
  {
    HistoryIsNewest(use, cms, kept, collected);
  }

  /** Every kept revision is newer than every collected one. */
  lemma HistoryIsNewest(use: Use, cms: set<Meta>, kept: Meta, collected: Meta)
    requires DistinctNames(cms) && kept in cms && collected in cms
    requires InHistory(use, cms, kept) && use.IsOther(collected) && IsCandidate(use, cms, collected)
    ensures Newer(kept, collected)
  {
    NewerIsAStrictOrder(kept, collected);
    if Newer(collected, kept) {
      forall o | o in NewerOthers(use, cms, collected) ensures o in NewerOthers(use, cms, kept) {
        NewerIsTransitive(o, collected, kept);
      }
      SubsetIsSmaller(NewerOthers(use, cms, collected), NewerOthers(use, cms, kept));
    }
  }

  /** The history keeps at most two revisions besides the applied one. */
  lemma HistoryIsBounded(use: Use, cms: set<Meta>)
    requires DistinctNames(cms)
    ensures |set m | m in cms && InHistory(use, cms, m)| < HISTORY_LIMIT
  {
    var kept := set m | m in cms && InHistory(use, cms, m);
    if kept != {} {
      var oldest := Oldest(kept);
      forall m | m in kept && m != oldest ensures m in NewerOthers(use, cms, oldest) {
        NewerIsAStrictOrder(m, oldest);
      }
      SubsetIsSmaller(kept - {oldest}, NewerOthers(use, cms, oldest));
    }
  }

  lemma {:induction false} Oldest(ms: set<Meta>) returns (oldest: Meta)
    requires ms != {} && DistinctNames(ms)
    ensures oldest in ms && forall m :: m in ms && m != oldest ==> Newer(m, oldest)
  {
    var x :| x in ms;
    var rest := ms - {x};
    if rest == {} {
      assert forall m :: m in ms ==> m == x || m in rest;
      return x;
    }
    var y := Oldest(rest);
    NewerIsAStrictOrder(x, y);
    if Newer(x, y) { return y; }
    forall m | m in ms && m != x ensures Newer(m, x) {
      if m != y { NewerIsTransitive(m, y, x); }
    }
    return x;
  }

  /** Once every candidate that is not live is gone, a collection on the same
      state deletes nothing. */
  lemma SecondCollectionDeletesNothing(use: Use, cms: set<Meta>, live: set<string>, left: set<Meta>)
    requires left == set m | m in cms && (!IsCandidate(use, cms, m) || m.name in live)
    ensures forall m :: IsCandidate(use, left, m) ==> m.name in live
  {
    forall m | IsCandidate(use, left, m) ensures m.name in live {
      SubsetIsSmaller(NewerOthers(use, left, m), NewerOthers(use, cms, m));
    }
  }

  // ---- Sorting ----

  ghost predicate SortedNewestFirst(s: seq<Meta>) {
    forall i, j :: 0 <= i < j < |s| ==> Newer(s[i], s[j])
  }

  function Elements(s: seq<Meta>): set<Meta> {
    set m | m in s
  }

  /** Adds m to sorted, before the first one it is newer than. */
  method Insert(m: Meta, sorted: seq<Meta>) returns (r: seq<Meta>)
    requires SortedNewestFirst(sorted) && forall o :: o in sorted ==> o.name != m.name
    ensures SortedNewestFirst(r) && Elements(r) == Elements(sorted) + {m} && |r| == |sorted| + 1
  {
    var at := |sorted|;
    while at > 0 && Newer(m, sorted[at - 1])
      invariant 0 <= at <= |sorted|
      invariant forall j :: at <= j < |sorted| ==> Newer(m, sorted[j])
    {
      at := at - 1;
    }
    forall j | 0 <= j < at ensures Newer(sorted[j], m) {
      NewerIsAStrictOrder(sorted[at - 1], m);
      assert sorted[at - 1] in sorted;
      if j < at - 1 { NewerIsTransitive(sorted[j], sorted[at - 1], m); }
    }
    r := sorted[..at] + [m] + sorted[at..];
    InsertedElements(sorted, at, m);
  }

  lemma InsertedElements(sorted: seq<Meta>, at: nat, m: Meta)
    requires at <= |sorted|
    ensures Elements(sorted[..at] + [m] + sorted[at..]) == Elements(sorted) + {m}
  {
    assert sorted == sorted[..at] + sorted[at..];
    assert forall o :: o in sorted <==> o in sorted[..at] || o in sorted[at..];
  }

  /** In a sorted list of all other revisions, what comes before m is what is
      newer. */
  lemma {:induction false} RankIsPosition(use: Use, cms: set<Meta>, sorted: seq<Meta>, i: nat)
    requires SortedNewestFirst(sorted) && i < |sorted|
    requires forall o :: o in sorted <==> o in cms && use.IsOther(o)
    ensures |NewerOthers(use, cms, sorted[i])| == i
  {
    var newer := NewerOthers(use, cms, sorted[i]);
    assert newer == Elements(sorted[..i]) by {
      forall o | o in newer ensures o in sorted[..i] {
        var j :| 0 <= j < |sorted| && sorted[j] == o;
        NewerIsAStrictOrder(sorted[i], sorted[i]);
        if i < j { Asymmetric(sorted[i], o); }
      }
    }
    DistinctCount(sorted, i);
  }

  lemma Asymmetric(a: Meta, b: Meta)
    ensures !(Newer(a, b) && Newer(b, a))
  {
    LessIsAsymmetric(a.name, b.name);
  }

  lemma {:induction false} DistinctCount(sorted: seq<Meta>, n: nat)
    requires SortedNewestFirst(sorted) && n <= |sorted|
    ensures |Elements(sorted[..n])| == n
  {
    if n > 0 {
      DistinctCount(sorted, n - 1);
      assert sorted[..n] == sorted[..n - 1] + [sorted[n - 1]];
      ElementsOneMore(sorted[..n - 1], sorted[n - 1]);
      forall j | 0 <= j < n - 1 ensures sorted[j] != sorted[n - 1] { NewerIsAStrictOrder(sorted[j], sorted[j]); }
      hide Newer;
      assert sorted[n - 1] !in sorted[..n - 1];
    }
  }

  lemma ElementsOneMore(s: seq<Meta>, m: Meta)
    ensures Elements(s + [m]) == Elements(s) + {m}
  {}

  // ---- The loops ----

  /** Splits the listed ConfigMaps into the revisions, newest first, and the
      legacy ones. */
  method Split(use: Use, cms: seq<Meta>) returns (revisions: seq<Meta>, candidates: seq<Meta>)
    requires forall i, j :: 0 <= i < j < |cms| ==> cms[i].name != cms[j].name
    ensures SortedNewestFirst(revisions)
    ensures forall m :: m in revisions <==> m in cms && use.Considers(m) && m.isRevision
    ensures forall m :: m in candidates <==> m in cms && use.IsLegacy(m)
  {
    revisions, candidates := [], [];
    for i := 0 to |cms|
      invariant SortedNewestFirst(revisions)
      invariant Elements(revisions) == set m | m in cms[..i] && use.Considers(m) && m.isRevision
      invariant forall m :: m in candidates <==> m in cms[..i] && use.IsLegacy(m)
    {
      var cm := cms[i];
      assert cms[..i + 1] == cms[..i] + [cm];
      if use.Considers(cm) {
        if cm.isRevision {
          assert forall o :: o in revisions ==> o in Elements(revisions);
          revisions := Insert(cm, revisions);
        } else if cm.name == use.gw.name && cm.name != use.inUse {
          candidates := candidates + [cm];
        }
      }
    }
    assert cms[..|cms|] == cms;
    assert forall m :: m in revisions <==> m in Elements(revisions);
  }

  /** The ConfigMaps that only a live ReplicaSet could still keep. */
  method Candidates(use: Use, cms: seq<Meta>) returns (candidates: seq<Meta>)
    requires forall i, j :: 0 <= i < j < |cms| ==> cms[i].name != cms[j].name
    ensures forall m :: m in candidates <==> IsCandidate(use, Elements(cms), m)
  {
    var revisions;
    revisions, candidates := Split(use, cms);
    ghost var legacy, others := candidates, [];
    var kept := 1;
    for i := 0 to |revisions|
      invariant SortedNewestFirst(others) && forall o :: o in others <==> o in revisions[..i] && o.name != use.inUse
      invariant kept == 1 + if |others| < HISTORY_LIMIT - 1 then |others| else HISTORY_LIMIT - 1
      invariant candidates == legacy + Beyond(others)
    {
      var r := revisions[i];
      assert revisions[..i + 1] == revisions[..i] + [r];
      if r.name != use.inUse {
        ghost var was := others;
        others := others + [r];
        assert forall o :: o in was ==> Newer(o, r);
        if kept < HISTORY_LIMIT {
          kept := kept + 1;
        } else {
          candidates := candidates + [r];
        }
      }
    }
    assert revisions[..|revisions|] == revisions;
    Ranked(use, Elements(cms), others);
  }

  /** What the history has no place for. */
  function Beyond(others: seq<Meta>): (r: seq<Meta>)
    ensures forall m :: m in r <==> exists j :: HISTORY_LIMIT - 1 <= j < |others| && others[j] == m
  {
    if |others| < HISTORY_LIMIT then [] else others[HISTORY_LIMIT - 1..]
  }

  lemma DistinctPositions(sorted: seq<Meta>)
    requires SortedNewestFirst(sorted)
    ensures forall i, j :: 0 <= i < j < |sorted| ==> sorted[i] != sorted[j]
  {
    forall i, j | 0 <= i < j < |sorted| ensures sorted[i] != sorted[j] { NewerIsAStrictOrder(sorted[i], sorted[i]); }
  }

  lemma Ranked(use: Use, cms: set<Meta>, others: seq<Meta>)
    requires SortedNewestFirst(others) && forall o :: o in others <==> o in cms && use.IsOther(o)
    ensures forall m :: m in cms && use.IsOther(m) ==>
              (InHistory(use, cms, m) <==> m !in Beyond(others))
  {
    DistinctPositions(others);
    forall i | 0 <= i < |others|
      ensures |NewerOthers(use, cms, others[i])| == i { RankIsPosition(use, cms, others, i); }
  }

  /** A ReplicaSet: the Deployment that controls it, the pods it wants (1 when
      unset) and has, and the ConfigMap its pods mount. */
  datatype ReplicaSet = ReplicaSet(deployment: Option<string>, wants: Option<nat>, has: nat, mounts: string)
  {
    /** It has or wants pods of the gateway's Deployment. */
    predicate KeepsAlive(gw: ConfigStore.Gateway) {
      deployment == Some(gw.name) && (wants != Some(0) || has != 0) && mounts != ""
    }
  }

  method LiveConfigMaps(gw: ConfigStore.Gateway, sets: seq<ReplicaSet>) returns (mounted: set<string>)
    ensures forall n :: n in mounted <==> exists rs :: rs in sets && rs.KeepsAlive(gw) && rs.mounts == n
  {
    mounted := {};
    for i := 0 to |sets|
      invariant forall n :: n in mounted <==> exists rs :: rs in sets[..i] && rs.KeepsAlive(gw) && rs.mounts == n
    {
      var rs := sets[i];
      assert sets[..i + 1] == sets[..i] + [rs];
      if rs.deployment == Some(gw.name) && !((match rs.wants case Some(w) => w case None => 1) == 0 && rs.has == 0) {
        if rs.mounts != "" { mounted := mounted + {rs.mounts}; }
      }
    }
    assert sets[..|sets|] == sets;
  }

  /** The stored ConfigMaps of a namespace, and how the n-th delete ends. */
  class Api {
    const outcome: nat -> ConfigStore.Outcome
    var calls: nat
    var stored: set<Meta>

    constructor (stored: set<Meta>, outcome: nat -> ConfigStore.Outcome)
      ensures this.stored == stored && this.outcome == outcome
    {
      this.stored, this.outcome, calls := stored, outcome, 0;
    }

    /** Deletes cm while it is the one listed. */
    method Delete(cm: Meta) returns (ok: bool)
      modifies this`calls, this`stored
      ensures stored == old(stored) || stored == old(stored) - {cm}
      ensures ok ==> stored == old(stored) - {cm}
    {
      var end := outcome(calls);
      calls := calls + 1;
      if !end.Lost? { stored := stored - {cm}; }
      return end.Delivered?;
    }
  }

  /** Deletes each candidate that no live ReplicaSet mounts, up to the first
      failure. */
  method Collect(api: Api, use: Use, listed: seq<Meta>, sets: seq<ReplicaSet>) returns (ok: bool)
    requires forall i, j :: 0 <= i < j < |listed| ==> listed[i].name != listed[j].name
    requires Elements(listed) == api.stored
    modifies api
    ensures api.stored <= old(api.stored)
    ensures forall m :: m in old(api.stored) - api.stored ==>
              IsCandidate(use, old(api.stored), m) && !exists rs ::
                rs in sets && rs.KeepsAlive(use.gw) && rs.mounts == m.name
    ensures ok ==> forall m :: m in api.stored && IsCandidate(use, old(api.stored), m) ==>
              exists rs :: rs in sets && rs.KeepsAlive(use.gw) && rs.mounts == m.name
  {
    var candidates := Candidates(use, listed);
    if candidates == [] { return true; }
    var live := LiveConfigMaps(use.gw, sets);
    for i := 0 to |candidates|
      invariant api.stored <= old(api.stored)
      invariant forall m :: m in old(api.stored) - api.stored ==> m in candidates && m.name !in live
      invariant forall m :: m in api.stored && m in candidates[..i] ==> m.name in live
    {
      assert candidates[..i + 1] == candidates[..i] + [candidates[i]];
      if candidates[i].name !in live {
        ok := api.Delete(candidates[i]);
        if !ok { return; }
      }
    }
    assert candidates[..|candidates|] == candidates;
    return true;
  }
}
