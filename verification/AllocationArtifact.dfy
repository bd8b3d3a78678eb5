/** The frozen allocation snapshot as an artifact: the payload its hash covers, and saving and
    restoring it (portfolio/simulation_allocation_provider.py, `AllocationConfig`). The digest
    itself is any function of the payload. */
module AllocationArtifact {
  import opened Common
  import opened Sorting
  import Allocation

  // ---------------------------------------------------------------------------
  // Strings in lexicographic order
  // ---------------------------------------------------------------------------

  predicate Before(a: string, b: string)
    decreases |b|
  {
    if b == "" then false
    else if a == "" then true
    else a[0] < b[0] || (a[0] == b[0] && Before(a[1..], b[1..]))
  }

  /** A string goes before another when it is a proper beginning of it, or has the smaller character where
      the two first differ. */
  lemma {:induction false} BeforeIsLexicographic(a: string, b: string)
    ensures Before(a, b) <==> a < b || exists k :: FirstDifference(a, b, k) && a[k] < b[k]
    decreases |b|
  {
    if a != "" && b != "" {
      var s, t := a[1..], b[1..];
      BeforeIsLexicographic(s, t);
      assert a[0] == b[0] ==> (a < b <==> s < t);
      if a[0] == b[0] {
        forall k ensures FirstDifference(a, b, k + 1) <==> FirstDifference(s, t, k) {
          DifferenceFollows(a, b, k);
        }
        assert !FirstDifference(a, b, 0);
        assert forall k :: FirstDifference(a, b, k) ==> FirstDifference(s, t, k - 1);
      } else {
        assert FirstDifference(a, b, 0);
      }
    }
  }

  predicate FirstDifference(a: string, b: string, k: int) {
    0 <= k < |a| && k < |b| && a[..k] == b[..k] && a[k] != b[k]
  }

  lemma DifferenceFollows(a: string, b: string, k: int)
    requires a != "" && b != "" && a[0] == b[0]
    ensures FirstDifference(a, b, k + 1) <==> FirstDifference(a[1..], b[1..], k)
  {
    if 0 <= k < |a| - 1 && k < |b| - 1 {
      assert a[..k + 1] == [a[0]] + a[1..][..k] && b[..k + 1] == [b[0]] + b[1..][..k];
      assert a[..k + 1][1..] == a[1..][..k] && b[..k + 1][1..] == b[1..][..k];
    }
  }

  lemma {:induction false} BeforeIsTotal(a: string, b: string)
    ensures a == b || Before(a, b) || Before(b, a)
    decreases |b|
  {
    if a != "" && b != "" && a[0] == b[0] {
      BeforeIsTotal(a[1..], b[1..]);
      assert a == [a[0]] + a[1..] && b == [b[0]] + b[1..];
    }
  }

  lemma {:induction false} BeforeIsTransitive(a: string, b: string, c: string)
    requires Before(a, b) && Before(b, c)
    ensures Before(a, c)
    decreases |c|
  {
    if a != "" && a[0] == b[0] && b[0] == c[0] {
      BeforeIsTransitive(a[1..], b[1..], c[1..]);
    }
  }

  lemma {:induction false} BeforeIsIrreflexive(a: string)
    ensures !Before(a, a)
  {
    if a != "" {
      BeforeIsIrreflexive(a[1..]);
    }
  }

  // ---------------------------------------------------------------------------
  // The snapshot and its payload
  // ---------------------------------------------------------------------------

  /** The entries dictionary in insertion order, each entry under its own strategy id. */
  type Entries = seq<Allocation.Entry>

  predicate Keyed(entries: Entries) {
    forall i, j :: 0 <= i < j < |entries| ==> entries[i].strategyId != entries[j].strategyId
  }

  datatype Snapshot = Snapshot(
    entries: Entries,
    defaultMaxPct: real,
    defaultMaxDrawdown: real,
    defaultPolicyId: string,
    totalCapital: real,
    effectiveAt: Instant,
    capturedBy: string,
    schemaVersion: string,
    hash: string)

  predicate SmallerId(x: Allocation.Entry, y: Allocation.Entry) {
    Before(x.strategyId, y.strategyId)
  }

  /** `sorted(..., key=strategy_id)`. */
  function SortById(entries: Entries): Entries {
    Sort(entries, SmallerId)
  }

  /** What the hash covers: no capital and no metadata. */
  datatype Payload = Payload(
    schemaVersion: string,
    defaultMaxPct: real,
    defaultMaxDrawdown: real,
    defaultPolicyId: string,
    entries: Entries)

  function PayloadOf(s: Snapshot): Payload {
    Payload(s.schemaVersion, s.defaultMaxPct, s.defaultMaxDrawdown, s.defaultPolicyId, SortById(s.entries))
  }

  /** The validator that fills in a missing hash. */
  function WithHash(s: Snapshot, digest: Payload -> string): Snapshot {
    if s.hash == "" then s.(hash := digest(PayloadOf(s))) else s
  }

  // ---------------------------------------------------------------------------
  // The sorted entries are canonical
  // ---------------------------------------------------------------------------

  predicate StrictlySorted(entries: Entries) {
    forall i, j :: 0 <= i < j < |entries| ==> Before(entries[i].strategyId, entries[j].strategyId)
  }

  lemma SmallerIdIsAnOrder()
    ensures StrictWeakOrder(SmallerId)
  {
    forall x, y | SmallerId(x, y) ensures !SmallerId(y, x) {
      if SmallerId(y, x) {
        BeforeIsTransitive(x.strategyId, y.strategyId, x.strategyId);
        BeforeIsIrreflexive(x.strategyId);
      }
    }
    forall x, y, z | !SmallerId(x, y) && !SmallerId(y, z) ensures !SmallerId(x, z) {
      BeforeIsTotal(x.strategyId, y.strategyId);
      BeforeIsTotal(y.strategyId, z.strategyId);
      if SmallerId(x, z) && SmallerId(y, x) {
        BeforeIsTransitive(y.strategyId, x.strategyId, z.strategyId);
      }
    }
  }

  predicate DifferentIds(x: Allocation.Entry, y: Allocation.Entry) {
    x.strategyId != y.strategyId
  }

  lemma SortKeys(entries: Entries)
    requires Keyed(entries)
    ensures Keyed(SortById(entries))
  {
    assert Pairwise(entries, DifferentIds);
    SortKeepsPairs(entries, SmallerId, DifferentIds);
    var sorted := SortById(entries);
    forall i, j | 0 <= i < j < |sorted| ensures sorted[i].strategyId != sorted[j].strategyId {
      assert DifferentIds(sorted[i], sorted[j]);
    }
  }

  lemma SortSortsById(entries: Entries)
    requires Keyed(entries)
    ensures StrictlySorted(SortById(entries))
  {
    var sorted := SortById(entries);
    SmallerIdIsAnOrder();
    SortSorts(entries, SmallerId);
    SortKeys(entries);
    forall i, j | 0 <= i < j < |sorted| ensures Before(sorted[i].strategyId, sorted[j].strategyId) {
      assert !SmallerId(sorted[j], sorted[i]);
      BeforeIsTotal(sorted[i].strategyId, sorted[j].strategyId);
    }
  }

  lemma LastIsGreatest(xs: Entries, ys: Entries)
    requires StrictlySorted(xs) && StrictlySorted(ys) && multiset(xs) == multiset(ys) && xs != []
    ensures ys != [] && xs[|xs| - 1] == ys[|ys| - 1]
  {
    var x := xs[|xs| - 1];
    assert x in multiset(ys);
    var y := ys[|ys| - 1];
    assert y in multiset(xs);
    var i :| 0 <= i < |ys| && ys[i] == x;
    var j :| 0 <= j < |xs| && xs[j] == y;
    if i < |ys| - 1 && j < |xs| - 1 {
      BeforeIsTransitive(x.strategyId, y.strategyId, x.strategyId);
      BeforeIsIrreflexive(x.strategyId);
    }
  }

  lemma {:induction false} SortedIsUnique(xs: Entries, ys: Entries)
    requires StrictlySorted(xs) && StrictlySorted(ys) && multiset(xs) == multiset(ys)
    ensures xs == ys
  {
    if xs == [] {
      assert |ys| == |multiset(ys)| == 0;
    } else {
      LastIsGreatest(xs, ys);
      FrontAndLast(xs);
      FrontAndLast(ys);
      assert multiset(xs[..|xs| - 1]) == multiset(xs) - multiset{xs[|xs| - 1]};
      assert multiset(ys[..|ys| - 1]) == multiset(ys) - multiset{ys[|ys| - 1]};
      SortedIsUnique(xs[..|xs| - 1], ys[..|ys| - 1]);
    }
  }

  predicate SameBehaviour(s: Snapshot, t: Snapshot) {
    && multiset(s.entries) == multiset(t.entries)
    && s.schemaVersion == t.schemaVersion
    && s.defaultMaxPct == t.defaultMaxPct
    && s.defaultMaxDrawdown == t.defaultMaxDrawdown
    && s.defaultPolicyId == t.defaultPolicyId
  }

  /** Two snapshots have one payload exactly when they hold the same entries, in whatever order they
      were captured, with the same defaults and schema; capital, time and author play no part. */
  lemma PayloadIffSameBehaviour(s: Snapshot, t: Snapshot)
    requires Keyed(s.entries) && Keyed(t.entries)
    ensures PayloadOf(s) == PayloadOf(t) <==> SameBehaviour(s, t)
  {
    SortPermutes(s.entries, SmallerId);
    SortPermutes(t.entries, SmallerId);
    if multiset(s.entries) == multiset(t.entries) {
      SortSortsById(s.entries);
      SortSortsById(t.entries);
      SortedIsUnique(SortById(s.entries), SortById(t.entries));
    }
  }

  // ---------------------------------------------------------------------------
  // The payload decides every allocation
  // ---------------------------------------------------------------------------

  function EntryMap(entries: Entries): map<StrategyId, Allocation.Entry> {
    if entries == [] then map[]
    else EntryMap(entries[..|entries| - 1])[entries[|entries| - 1].strategyId := entries[|entries| - 1]]
  }

  function ConfigOf(s: Snapshot): Allocation.Config {
    Allocation.Config(EntryMap(s.entries), s.defaultMaxPct, s.defaultMaxDrawdown, s.defaultPolicyId, s.totalCapital)
  }

  lemma {:induction false} EntryMapHolds(entries: Entries, sid: StrategyId)
    requires Keyed(entries)
    ensures sid in EntryMap(entries) ==> EntryMap(entries)[sid] in entries && EntryMap(entries)[sid].strategyId == sid
    ensures forall e :: e in entries && e.strategyId == sid ==> sid in EntryMap(entries) && EntryMap(entries)[sid] == e
  {
    if entries != [] {
      var front, last := entries[..|entries| - 1], entries[|entries| - 1];
      EntryMapHolds(front, sid);
      assert forall e :: e in entries <==> e in front || e == last;
      forall e | e in front ensures e.strategyId != last.strategyId {
        var k :| 0 <= k < |front| && front[k] == e;
        assert entries[k] == e;
      }
    }
  }

  /** Snapshots with one payload give every strategy the same answer at the same capital. */
  lemma PayloadDecidesAllocations(s: Snapshot, t: Snapshot, capital: real, sid: StrategyId,
                                  status: Option<Allocation.GovernanceState>)
    requires Keyed(s.entries) && Keyed(t.entries) && PayloadOf(s) == PayloadOf(t)
    ensures Allocation.Provide(ConfigOf(s), capital, sid, status)
         == Allocation.Provide(ConfigOf(t), capital, sid, status)
  {
    PayloadIffSameBehaviour(s, t);
    EntryMapHolds(s.entries, sid);
    EntryMapHolds(t.entries, sid);
    assert forall e :: e in s.entries <==> e in multiset(s.entries);
    assert forall e :: e in t.entries <==> e in multiset(t.entries);
  }

  // ---------------------------------------------------------------------------
  // Saving and restoring
  // ---------------------------------------------------------------------------

  /** The artifact dictionary; the optional keys are those the reader tolerates missing. */
  datatype Artifact = Artifact(
    entries: Option<Entries>,
    defaultMaxPct: real,
    defaultMaxDrawdown: real,
    defaultPolicyId: string,
    totalCapital: real,
    effectiveAt: Instant,
    capturedBy: Option<string>,
    schemaVersion: Option<string>,
    hash: Option<string>)

  function ToArtifact(s: Snapshot): Artifact {
    Artifact(Some(SortById(s.entries)), s.defaultMaxPct, s.defaultMaxDrawdown, s.defaultPolicyId, s.totalCapital,
             s.effectiveAt, Some(s.capturedBy), Some(s.schemaVersion), Some(s.hash))
  }

  function FromArtifact(a: Artifact, digest: Payload -> string): Snapshot {
    WithHash(Snapshot(Allocation.Merge(a.entries, []), a.defaultMaxPct, a.defaultMaxDrawdown, a.defaultPolicyId,
                      a.totalCapital, a.effectiveAt, Allocation.Merge(a.capturedBy, "persisted_artifact"),
                      Allocation.Merge(a.schemaVersion, "1.0"), Allocation.Merge(a.hash, "")),
             digest)
  }

  /** A restored snapshot is the saved one up to the order of its entries: same hash, same payload
      and the same answers; and an artifact that lost its hash gets the original one back. */
  lemma RestoringKeepsTheSnapshot(s: Snapshot, digest: Payload -> string, capital: real, sid: StrategyId,
                                  status: Option<Allocation.GovernanceState>)
    requires Keyed(s.entries) && s.hash != ""
    ensures var r := FromArtifact(ToArtifact(s), digest);
      && r == s.(entries := SortById(s.entries))
      && multiset(r.entries) == multiset(s.entries)
      && PayloadOf(r) == PayloadOf(s)
      && Allocation.Provide(ConfigOf(r), capital, sid, status) == Allocation.Provide(ConfigOf(s), capital, sid, status)
    ensures s.hash == digest(PayloadOf(s)) ==>
              FromArtifact(ToArtifact(s).(hash := None), digest).hash == s.hash
  {
    var r := s.(entries := SortById(s.entries));
    SortPermutes(s.entries, SmallerId);
    SortSortsById(s.entries);
    SortedAreKeyed(SortById(s.entries));
    PayloadIffSameBehaviour(r, s);
    PayloadDecidesAllocations(r, s, capital, sid, status);
    var bare := r.(hash := "");
    assert PayloadOf(bare) == PayloadOf(r);
  }

  /** An artifact without its optional keys is read as an empty snapshot by the default author and schema, with
      the hash of its payload. */
  lemma MissingKeysTakeDefaults(a: Artifact, digest: Payload -> string)
    requires a.entries == None && a.capturedBy == a.schemaVersion == a.hash == None
    ensures var r := FromArtifact(a, digest);
      && r.entries == [] && r.capturedBy == "persisted_artifact" && r.schemaVersion == "1.0"
      && r.hash == digest(PayloadOf(r)) && r.totalCapital == a.totalCapital && r.effectiveAt == a.effectiveAt
      && r.defaultMaxPct == a.defaultMaxPct && r.defaultMaxDrawdown == a.defaultMaxDrawdown
      && r.defaultPolicyId == a.defaultPolicyId
  {
    assert PayloadOf(FromArtifact(a, digest)) == Payload("1.0", a.defaultMaxPct, a.defaultMaxDrawdown,
                                                         a.defaultPolicyId, []);
  }

  lemma SortedAreKeyed(entries: Entries)
    requires StrictlySorted(entries)
    ensures Keyed(entries)
  {
    forall i, j | 0 <= i < j < |entries| ensures entries[i].strategyId != entries[j].strategyId {
      BeforeIsIrreflexive(entries[i].strategyId);
    }
  }
}
