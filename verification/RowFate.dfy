// What a tick makes of the rows its snapshot shows: which it closes, and that it
// leaves the others open with their history.
module RowFate {
  import opened Problems
  import opened Collecting
  import opened Clustering
  import opened Detector
  import opened DetectorSafety
  import opened ScanOrder

  // ----- the verdict on one row -----

  // What a verdict on an open row ends in, when its write is stored.
  ghost predicate Ends(r: Reads, pa: Pending, ex: Problem, row: Problem) {
    && row.id == ex.id && HasKey(row, ex.ruleId, ex.service)
    && row.startedAt == ex.startedAt && row.severity == ex.severity
    && row.metric == ex.metric && row.external == ex.external
    && (row.status == Resolved <==> pa.outcome == Verdict.Resolve)
    && (pa.outcome != Verdict.Resolve ==> row.status == ex.status)
    && (pa.outcome == Verdict.None ==> row == ex)
    && (pa.outcome == Verdict.Open ==> row.note == r.text(pa.service, pa.metric))
    && (pa.outcome == Verdict.Resolve ==>
          row.note == ex.note + if r.hasData(pa.service, pa.metric) then "" else " signal loss")
  }

  lemma OutcomeEnds(
    r: Reads, snap: seq<Problem>, suppressed: set<string>, merged: set<string>, pa: Pending, ex: Problem)
    requires Existing(snap, pa.service, pa.metric) == Some(ex) && ex.id !in merged && IsActive(ex)
    requires pa.outcome != Verdict.Skip
    ensures var w := ApplyStep(r, snap, suppressed, merged)(pa);
            w.Some? && Ends(r, pa, ex, w.value.row)
  {
    hide Existing;
  }

  lemma PendingActs(r: Reads, snap: seq<Problem>, pa: Pending)
    requires pa in AllPending(r, snap)
    ensures pa.outcome != Verdict.Skip
  {
    var pair := CollectSource(Pairs(r.services, r.tracked), PendingStep(r, snap), pa);
    PendingIs(r, snap, pair, pa);
  }

  ghost predicate OnlyAttempt(run: seq<Attempt>, i: nat, id: string) {
    && i < |run| && run[i].write.row.id == id
    && forall j :: 0 <= j < |run| && run[j].write.row.id == id ==> j == i
  }

  lemma OneAttempt(run: seq<Attempt>, ws: seq<Write>, w: Write) returns (i: nat)
    requires Writes(run) == ws && Apart(ws, SameId) && w in ws
    ensures OnlyAttempt(run, i, w.row.id) && run[i].write == w
  {
    i :| 0 <= i < |ws| && ws[i] == w;
    assert run[i].write == Writes(run)[i];
    forall j | 0 <= j < |run| && run[j].write.row.id == w.row.id ensures j == i {
      assert run[j].write == Writes(run)[j];
      assert i < j ==> !SameId(ws[i], ws[j]);
      assert j < i ==> !SameId(ws[j], ws[i]);
    }
  }

  // A verdict on a row that is open, and was not folded into a cluster, makes
  // exactly one attempt on it. Once that is stored the row is closed if and only
  // if the verdict is to resolve; otherwise it keeps its status, start and
  // severity. When the store refuses it the row stays what it was.
  lemma VerdictOnOpenRow(
    r: Reads, rows: map<string, Problem>, snap: seq<Problem>, t: Run, pa: Pending, ex: Problem) returns (i: nat)
    requires WellFormed(rows) && GoodReads(r, rows) && IsPartial(snap, rows) && IsTick(r, snap, t)
    requires pa in AllPending(r, snap) && Existing(snap, pa.service, pa.metric) == Some(ex)
    requires ex.id !in MergedIds(Flatten(t.blocks))
    ensures OnlyAttempt(t.applied, i, ex.id) && ex.id in After(rows, t)
    ensures t.applied[i].ok ==> Ends(r, pa, ex, After(rows, t)[ex.id])
    ensures !t.applied[i].ok ==> After(rows, t)[ex.id] == ex
  {
    hide *;
    var suppressed, merged := Grouped(t.clusters), MergedIds(Flatten(t.blocks));
    var f := ApplyStep(r, snap, suppressed, merged);
    ExistingIsActive(rows, snap, pa.service, pa.metric);
    PendingActs(r, snap, pa);
    OutcomeEnds(r, snap, suppressed, merged, pa, ex);
    CollectKeeps(AllPending(r, snap), f, pa);
    AppliedApart(r, rows, snap, suppressed, merged);
    TickShape(r, snap, t);
    i := OneAttempt(t.applied, Collect(AllPending(r, snap), f), f(pa).value);
    EndsSameId(r, pa, ex, f(pa).value.row);
    StillThere(r, rows, snap, t, ex);
    if t.applied[i].ok {
      ThatAttempt(t, i, ex.id);
      StoredWritesLast(r, rows, snap, t, t.applied[i]);
    } else {
      NoOtherAttempt(r, rows, snap, t, i, ex.id);
    }
  }

  // Had the store accepted the attempt, it would have been the only stored one;
  // so no other is stored when it is refused.
  lemma NoOtherAttempt(r: Reads, rows: map<string, Problem>, snap: seq<Problem>, t: Run, i: nat, id: string)
    requires WellFormed(rows) && GoodReads(r, rows) && IsPartial(snap, rows) && IsTick(r, snap, t)
    requires OnlyAttempt(t.applied, i, id) && !t.applied[i].ok
    ensures forall a :: a in t.All() && a.write.row.id == id ==> !a.ok
  {
    var yes := Attempt(t.applied[i].write, true);
    var t' := t.(applied := t.applied[i := yes]);
    assert t'.applied[i] == yes && t'.batch == t.batch && t'.blocks == t.blocks && t'.stale == t.stale;
    assert forall a :: a in t.applied && a.write.row.id == id ==> a == t.applied[i];
    SameTick(r, snap, t, t');
    AllParts(t);
    hide *;
    BatchApart(r, rows, snap, t');
    BlocksApartFromRest(r, rows, snap, t');
    StaleApart(r, rows, snap, t');
    forall a | a in t.All() && a.write.row.id == id ensures !a.ok {
      if a !in t.applied {
        ApartIs(t'.batch, t'.applied, a, yes);
        ApartIs(Flatten(t'.blocks), t'.applied, a, yes);
        ApartIs(t'.stale, t'.applied, a, yes);
      }
    }
  }

  lemma AllParts(t: Run)
    ensures forall a :: a in t.All() <==> a in t.batch || a in Flatten(t.blocks) || a in t.stale || a in t.applied
  {
    hide Flatten;
  }

  lemma ApartIs(xs: seq<Attempt>, ys: seq<Attempt>, x: Attempt, y: Attempt)
    requires NoClash(xs, ys) && y in ys && y.ok && x.write.row.id == y.write.row.id
    ensures x in xs ==> !x.ok
  {}

  // Which attempts a tick makes does not depend on what the store answers to the
  // last phase.
  lemma SameTick(r: Reads, snap: seq<Problem>, t: Run, t': Run)
    requires IsTick(r, snap, t) && t' == t.(applied := t'.applied) && Writes(t'.applied) == Writes(t.applied)
    ensures IsTick(r, snap, t')
  {
    assert t'.Cands(r, snap) == t.Cands(r, snap);
    hide AreRecent, ClustersFit, Writes, BatchWrites, HaveBlocks, Collect, MergedIds, Flatten, FreshOpens, AllPending;
  }

  lemma ExistingIsActive(rows: map<string, Problem>, snap: seq<Problem>, service: string, metric: string)
    requires WellFormed(rows) && IsPartial(snap, rows) && Existing(snap, service, metric).Some?
    ensures var ex := Existing(snap, service, metric).value;
            ex in snap && IsActive(ex) && HasKey(ex, MetricRule(service, metric), service)
  {
    ExistingFacts(snap, rows, service, metric);
    hide Existing, WellFormed, MetricRule;
  }

  lemma EndsSameId(r: Reads, pa: Pending, ex: Problem, row: Problem)
    requires Ends(r, pa, ex, row)
    ensures row.id == ex.id
  {}

  lemma ThatAttempt(t: Run, i: nat, id: string)
    requires OnlyAttempt(t.applied, i, id)
    ensures t.applied[i] in t.applied && t.applied[i] in t.All() && t.applied[i].write.row.id == id
  {
    hide Flatten;
    assert t.applied[i] in t.stale + t.applied;
    assert t.applied[i] in Flatten(t.blocks) + (t.stale + t.applied);
  }

  // A row of the snapshot is in the table afterwards, unchanged when nothing was
  // stored under its identity.
  lemma StillThere(r: Reads, rows: map<string, Problem>, snap: seq<Problem>, t: Run, p: Problem)
    requires WellFormed(rows) && GoodReads(r, rows) && IsPartial(snap, rows) && IsTick(r, snap, t) && p in snap
    ensures p.id in After(rows, t)
    ensures (forall a :: a in t.All() && a.write.row.id == p.id ==> !a.ok) ==> After(rows, t)[p.id] == p
  {
    ShownRow(rows, snap, p);
    hide *;
    AfterIs(rows, t);
    if a :| a in t.All() && a.ok && a.write.row.id == p.id {
      StoredWritesLast(r, rows, snap, t, a);
    } else {
      ReplayKeeps(rows, t.All(), p.id);
    }
  }

  lemma ShownRow(rows: map<string, Problem>, snap: seq<Problem>, p: Problem)
    requires IsPartial(snap, rows) && p in snap
    ensures p.id in rows && rows[p.id] == p && IsActive(p)
  {}

  // ----- why a tick closes a row, in terms of its reads -----

  // Load rows of batch services, once the settings are confirmed.
  ghost predicate BatchLoad(r: Reads, p: Problem) {
    r.settingsConfirmed && r.isBatch(p.service) && !p.external && p.ruleId == MetricRule(p.service, "request_rate")
  }

  // The detector judges the pair in this tick.
  ghost predicate Judges(r: Reads, service: string, metric: string) {
    && service in r.services && metric in r.tracked && !r.held(service, metric)
    && !(metric == "request_rate" && r.isBatch(service))
  }

  // The series of the row is back to normal.
  ghost predicate Recovered(r: Reads, p: Problem) {
    exists metric :: Judges(r, p.service, metric) && p.ruleId == MetricRule(p.service, metric)
                     && r.verdict(p.service, metric, true) == Verdict.Resolve
  }

  // An individual row of this detector that opened within half an hour.
  ghost predicate Recent(r: Reads, p: Problem) {
    && p.status == Open && !p.external && p.startedAt + 1800 * 1000000000 >= r.now
    && p.service != "" && p.metric != "" && p.metric in r.tracked && p.ruleId == MetricRule(p.service, p.metric)
  }

  ghost predicate HasRow(snap: seq<Problem>, service: string, metric: string) {
    exists p :: p in snap && HasKey(p, MetricRule(service, metric), service)
  }

  // A service is anomalous now: a verdict opens, or a recent row goes on.
  ghost predicate OpenNow(r: Reads, snap: seq<Problem>, service: string) {
    || (exists metric ::
          Judges(r, service, metric) && r.verdict(service, metric, HasRow(snap, service, metric)) == Verdict.Open)
    || (exists p :: p in snap && p.service == service && GoesOn(r, p))
  }

  ghost predicate GoesOn(r: Reads, p: Problem) { Recent(r, p) && !BatchLoad(r, p) && !Recovered(r, p) }

  ghost predicate Closes(r: Reads, snap: seq<Problem>, clusters: seq<Cluster>, p: Problem) {
    || BatchLoad(r, p)
    || Recovered(r, p)
    || (Recent(r, p) && p.service in Grouped(clusters))
    || (OwnsServiceCluster(p.ruleId) && !OpenNow(r, snap, p.service))
  }

  // ----- the reads behind the pending verdicts -----

  lemma PendingIff(r: Reads, snap: seq<Problem>, pa: Pending)
    ensures pa in AllPending(r, snap)
       <==> (pa.service in r.services && pa.metric in r.tracked
             && PendingOn(r, snap, pa.service, pa.metric) == Some(pa))
  {
    var pair := (pa.service, pa.metric);
    PairFacts(r.services, r.tracked, pair);
    if pa in AllPending(r, snap) {
      var from := CollectSource(Pairs(r.services, r.tracked), PendingStep(r, snap), pa);
      PendingIs(r, snap, from, pa);
    }
    if pair in Pairs(r.services, r.tracked) && PendingOn(r, snap, pa.service, pa.metric) == Some(pa) {
      assert PendingStep(r, snap)(pair) == Some(pa);
      hide PendingStep;
      CollectKeeps(Pairs(r.services, r.tracked), PendingStep(r, snap), pair);
    }
  }

  lemma ExistingIff(rows: map<string, Problem>, snap: seq<Problem>, service: string, metric: string)
    requires WellFormed(rows) && IsPartial(snap, rows)
    ensures Existing(snap, service, metric).Some? <==> HasRow(snap, service, metric)
    ensures forall p :: p in snap && HasKey(p, MetricRule(service, metric), service) ==>
              Existing(snap, service, metric) == Some(p)
  {
    ExistingFacts(snap, rows, service, metric);
    assert UniqueActive(rows);
    hide Existing, MetricRule, ClusterShape;
    forall p | p in snap && HasKey(p, MetricRule(service, metric), service)
      ensures Existing(snap, service, metric) == Some(p)
    {
      var q := Existing(snap, service, metric).value;
      assert SameKey(rows[p.id], rows[q.id]);
    }
  }

  lemma VerdictIff(r: Reads, rows: map<string, Problem>, snap: seq<Problem>, pa: Pending)
    requires WellFormed(rows) && IsPartial(snap, rows)
    requires pa.outcome == Verdict.Open || pa.outcome == Verdict.Resolve
    ensures pa in AllPending(r, snap)
       <==> (Judges(r, pa.service, pa.metric)
             && r.verdict(pa.service, pa.metric, HasRow(snap, pa.service, pa.metric)) == pa.outcome)
  {
    PendingIff(r, snap, pa);
    ExistingIff(rows, snap, pa.service, pa.metric);
    hide Existing, HasRow, AllPending, WellFormed, IsPartial;
  }

  ghost predicate IsRecovery(r: Reads, snap: seq<Problem>, p: Problem, pa: Pending) {
    && pa in AllPending(r, snap) && pa.outcome == Verdict.Resolve
    && HasKey(p, MetricRule(pa.service, pa.metric), pa.service)
  }

  lemma RecoveredIff(r: Reads, rows: map<string, Problem>, snap: seq<Problem>, p: Problem)
    requires WellFormed(rows) && IsPartial(snap, rows) && p in snap
    ensures Recovered(r, p)
       <==> exists pa :: IsRecovery(r, snap, p, pa)
  {
    hide AllPending, WellFormed, IsPartial, MetricRule, Judges;
    if Recovered(r, p) {
      var m :| Judges(r, p.service, m) && p.ruleId == MetricRule(p.service, m)
        && r.verdict(p.service, m, true) == Verdict.Resolve;
      var pa := Pending(p.service, m, Verdict.Resolve);
      VerdictIff(r, rows, snap, pa);
      assert IsRecovery(r, snap, p, pa);
    }
    if exists pa :: IsRecovery(r, snap, p, pa) {
      var pa :| IsRecovery(r, snap, p, pa);
      VerdictIff(r, rows, snap, pa);
    }
  }

  // Keys that are being closed, for rows of the snapshot.
  lemma ResolvingIff(r: Reads, rows: map<string, Problem>, snap: seq<Problem>, p: Problem)
    requires WellFormed(rows) && IsPartial(snap, rows) && p in snap
    ensures (p.ruleId, p.service) in Resolving(r, snap) <==> BatchLoad(r, p) || Recovered(r, p)
  {
    RecoveredIff(r, rows, snap, p);
    BatchKeysIff(r, rows, snap, p);
    KeysIff(r, snap, p);
    hide *;
  }

  lemma KeysIff(r: Reads, snap: seq<Problem>, p: Problem)
    ensures (p.ruleId, p.service) in Resolving(r, snap)
       <==> ((exists w :: w in BatchWrites(r, snap) && HasKey(p, w.row.ruleId, w.row.service))
             || exists pa :: IsRecovery(r, snap, p, pa))
  {
    hide AllPending, BatchWrites, MetricRule;
    if exists pa :: IsRecovery(r, snap, p, pa) {
      var pa :| IsRecovery(r, snap, p, pa);
      assert (MetricRule(pa.service, pa.metric), pa.service) in ResolvedKeys(AllPending(r, snap));
    }
    if (p.ruleId, p.service) in ResolvedKeys(AllPending(r, snap)) {
      var pa :| pa in AllPending(r, snap) && pa.outcome == Verdict.Resolve
        && (MetricRule(pa.service, pa.metric), pa.service) == (p.ruleId, p.service);
      assert IsRecovery(r, snap, p, pa);
    }
  }

  lemma BatchRowIff(r: Reads, rows: map<string, Problem>, snap: seq<Problem>, p: Problem)
    requires WellFormed(rows) && IsPartial(snap, rows) && p in snap
    ensures BatchLoad(r, p) <==> r.settingsConfirmed && IsBatchLoadRow(r, p)
  {
    assert p.id != "";
    hide ClusterShape, UniqueActive, MetricRule;
  }

  lemma BatchKeysIff(r: Reads, rows: map<string, Problem>, snap: seq<Problem>, p: Problem)
    requires WellFormed(rows) && IsPartial(snap, rows) && p in snap
    ensures BatchLoad(r, p) <==> exists w :: w in BatchWrites(r, snap) && HasKey(p, w.row.ruleId, w.row.service)
  {
    BatchRowIff(r, rows, snap, p);
    if BatchLoad(r, p) {
      CollectKeeps(snap, BatchStep(r), p);
      assert HasKey(p, p.ruleId, p.service);
    }
    if w :| w in BatchWrites(r, snap) && HasKey(p, w.row.ruleId, w.row.service) {
      var q := CollectSource(snap, BatchStep(r), w);
      SameRow(rows, snap, p, q);
    }
  }

  lemma SameRow(rows: map<string, Problem>, snap: seq<Problem>, p: Problem, q: Problem)
    requires WellFormed(rows) && IsPartial(snap, rows) && p in snap && q in snap && SameKey(p, q)
    ensures p == q
  {
    if p != q {
      RowsDiffer(rows, snap, p, q);
    }
  }

  lemma RecentIff(r: Reads, rows: map<string, Problem>, snap: seq<Problem>, p: Problem)
    requires WellFormed(rows) && IsPartial(snap, rows) && p in snap
    ensures IsRecent(p, Resolving(r, snap), r.tracked, r.now) <==> GoesOn(r, p)
  {
    ResolvingIff(r, rows, snap, p);
    assert p.id != "";
    hide WellFormed, IsPartial, MetricRule, Resolving, BatchLoad, Recovered;
  }

  lemma JoinedIff(r: Reads, rows: map<string, Problem>, snap: seq<Problem>, joined: seq<Candidate>, p: Problem)
    requires WellFormed(rows) && IsPartial(snap, rows) && p in snap && AreRecent(joined, r, snap, Resolving(r, snap))
    ensures GoesOn(r, p) <==> Candidate(p.service, p.metric, p.severity, Some(p)) in joined
  {
    var f := RecentStep(Resolving(r, snap), r.tracked, r.now);
    RecentIff(r, rows, snap, p);
    SameElements(joined, Collect(snap, f));
    var c := Candidate(p.service, p.metric, p.severity, Some(p));
    hide GoesOn, Resolving, WellFormed, IsPartial, IsRecent;
    if IsRecent(p, Resolving(r, snap), r.tracked, r.now) {
      CollectKeeps(snap, f, p);
    }
    if c in joined {
      var q := CollectSource(snap, f, c);
    }
  }

  lemma AnomalousIff(r: Reads, rows: map<string, Problem>, snap: seq<Problem>, joined: seq<Candidate>, service: string)
    requires WellFormed(rows) && IsPartial(snap, rows) && AreRecent(joined, r, snap, Resolving(r, snap))
    ensures service in Anomalous(r, snap, joined) <==> OpenNow(r, snap, service)
  {
    OpensIff(r, rows, snap, service);
    hide WellFormed, IsPartial, AreRecent, Resolving, AllPending, Judges, HasRow, GoesOn, MetricRule;
    forall c | c in joined ensures exists p :: p in snap && p.service == c.service && GoesOn(r, p) {
      JoinedFacts(r, snap, joined, Resolving(r, snap), c);
      RecentIff(r, rows, snap, c.existing.value);
    }
    if p :| p in snap && p.service == service && GoesOn(r, p) {
      JoinedIff(r, rows, snap, joined, p);
    }
  }

  lemma OpensIff(r: Reads, rows: map<string, Problem>, snap: seq<Problem>, service: string)
    requires WellFormed(rows) && IsPartial(snap, rows)
    ensures service in OpenServices(AllPending(r, snap))
       <==> exists metric ::
              Judges(r, service, metric) && r.verdict(service, metric, HasRow(snap, service, metric)) == Verdict.Open
  {
    hide WellFormed, IsPartial, AllPending, Judges, HasRow, MetricRule;
    if service in OpenServices(AllPending(r, snap)) {
      var pa :| pa in AllPending(r, snap) && pa.outcome == Verdict.Open && pa.service == service;
      VerdictIff(r, rows, snap, pa);
    }
    if m :| Judges(r, service, m) && r.verdict(service, m, HasRow(snap, service, m)) == Verdict.Open {
      VerdictIff(r, rows, snap, Pending(service, m, Verdict.Open));
    }
  }

  // ----- every write to a row of the snapshot -----

  // The row keeps its identity, its key and its history.
  ghost predicate SameHistory(p: Problem, row: Problem) {
    && row.id == p.id && HasKey(row, p.ruleId, p.service) && row.metric == p.metric && row.external == p.external
    && row.startedAt == p.startedAt && (row.status == Resolved || row.status == p.status)
    && (row.id != row.ruleId ==> row.severity == p.severity)
  }

  ghost predicate Fate(r: Reads, snap: seq<Problem>, clusters: seq<Cluster>, p: Problem, row: Problem) {
    SameHistory(p, row) && (row.status == Resolved ==> Closes(r, snap, clusters, p))
  }

  lemma ClosedKeeps(p: Problem, note: string)
    ensures SameHistory(p, Closed(p, note)) && Closed(p, note).status == Resolved
  {}

  lemma SameRowById(rows: map<string, Problem>, snap: seq<Problem>, p: Problem, q: Problem)
    requires IsPartial(snap, rows) && p in snap && q in snap && p.id == q.id
    ensures p == q
  {}

  lemma BatchFate(
    r: Reads, rows: map<string, Problem>, snap: seq<Problem>, clusters: seq<Cluster>, p: Problem, w: Write)
    requires WellFormed(rows) && IsPartial(snap, rows) && p in snap && w in BatchWrites(r, snap) && w.row.id == p.id
    ensures Fate(r, snap, clusters, p, w.row)
  {
    var q := CollectSource(snap, BatchStep(r), w);
    SameRowById(rows, snap, p, q);
    BatchRowIff(r, rows, snap, p);
    ClosedKeeps(p, " batch load");
    hide WellFormed, IsPartial, BatchLoad, Recovered, Recent, OpenNow, IsBatchLoadRow, SameHistory, Closed;
  }

  lemma StaleFate(
    r: Reads, rows: map<string, Problem>, snap: seq<Problem>, joined: seq<Candidate>, clusters: seq<Cluster>,
    p: Problem, w: Write)
    requires WellFormed(rows) && IsPartial(snap, rows) && p in snap && AreRecent(joined, r, snap, Resolving(r, snap))
    requires w in Collect(snap, StaleStep(Anomalous(r, snap, joined))) && w.row.id == p.id
    ensures Fate(r, snap, clusters, p, w.row)
  {
    var q := CollectSource(snap, StaleStep(Anomalous(r, snap, joined)), w);
    AnomalousIff(r, rows, snap, joined, p.service);
    SameRowById(rows, snap, p, q);
    ClosedKeeps(p, "");
    hide WellFormed, IsPartial, BatchLoad, Recovered, Recent, OpenNow, SameHistory, Closed, AreRecent, Anomalous;
  }

  lemma EndsKeeps(r: Reads, snap: seq<Problem>, clusters: seq<Cluster>, p: Problem, pa: Pending, row: Problem)
    requires Ends(r, pa, p, row) && (pa.outcome == Verdict.Resolve ==> Recovered(r, p))
    ensures Fate(r, snap, clusters, p, row)
  {
    hide BatchLoad, Recovered, Recent, OpenNow;
  }

  lemma AppliedFate(
    r: Reads, rows: map<string, Problem>, snap: seq<Problem>, t: Run, p: Problem, a: Attempt)
    requires WellFormed(rows) && GoodReads(r, rows) && IsPartial(snap, rows) && IsTick(r, snap, t)
    requires p in snap && a in t.applied && a.write.row.id == p.id
    ensures Fate(r, snap, t.clusters, p, a.write.row)
  {
    hide *;
    var suppressed, merged := Grouped(t.clusters), MergedIds(Flatten(t.blocks));
    var pa := VerdictOf(r, rows, snap, t, a);
    OldIsRewritten(r, rows, snap, merged, pa, a.write, p);
    WrittenIsExisting(r, rows, snap, suppressed, merged, pa, a.write, p);
    PendingActs(r, snap, pa);
    ExistingIsActive(rows, snap, pa.service, pa.metric);
    OutcomeEnds(r, snap, suppressed, merged, pa, p);
    RecoveryIs(r, rows, snap, p, pa);
    EndsKeeps(r, snap, t.clusters, p, pa, a.write.row);
  }

  lemma RecoveryIs(r: Reads, rows: map<string, Problem>, snap: seq<Problem>, p: Problem, pa: Pending)
    requires WellFormed(rows) && IsPartial(snap, rows) && p in snap && pa in AllPending(r, snap)
    requires HasKey(p, MetricRule(pa.service, pa.metric), pa.service)
    ensures pa.outcome == Verdict.Resolve ==> Recovered(r, p)
  {
    RecoveredIff(r, rows, snap, p);
    hide WellFormed, IsPartial, AllPending, MetricRule, Recovered;
    if pa.outcome == Verdict.Resolve {
      assert IsRecovery(r, snap, p, pa);
    }
  }

  lemma OldIsRewritten(
    r: Reads, rows: map<string, Problem>, snap: seq<Problem>, merged: set<string>, pa: Pending, w: Write, p: Problem)
    requires GoodReads(r, rows) && IsPartial(snap, rows) && p in snap && w.row.id == p.id
    requires AppliedFact(r, snap, merged, pa, w)
    ensures RewriteFact(r, snap, merged, pa, w) && p.id !in merged
  {
    NewIdsAreNew(r, rows, snap, pa);
  }

  lemma WrittenIsExisting(
    r: Reads, rows: map<string, Problem>, snap: seq<Problem>, suppressed: set<string>, merged: set<string>,
    pa: Pending, w: Write, p: Problem)
    requires WellFormed(rows) && IsPartial(snap, rows) && p in snap && w.row.id == p.id
    requires ApplyStep(r, snap, suppressed, merged)(pa) == Some(w) && RewriteFact(r, snap, merged, pa, w)
    ensures Existing(snap, pa.service, pa.metric) == Some(p)
  {
    var q :| q in snap && q.id == w.row.id && HasKey(q, MetricRule(pa.service, pa.metric), pa.service);
    SameRowById(rows, snap, p, q);
    ExistingIff(rows, snap, pa.service, pa.metric);
    hide WellFormed, IsPartial, Existing, MetricRule, ApplyStep;
  }

  // A cluster refreshes its own row.
  lemma RefreshFate(
    r: Reads, rows: map<string, Problem>, snap: seq<Problem>, cl: Cluster, targets: seq<Problem>, critical: bool,
    p: Problem, row: Problem, clusters: seq<Cluster>)
    requires WellFormed(rows) && IsPartial(snap, rows) && p in snap && p.id == row.id
    requires IsClusterRow(row, cl, targets, critical, r, snap)
    ensures Fate(r, snap, clusters, p, row) && row.status == p.status
  {
    ClusterRowShape(r, rows, snap, cl, row, targets, critical);
    FoundById(snap, ClusterId(cl.source));
    assert p.id != "" && IsActive(p) && ClusterShape(rows[p.id]);
    hide ById, ClusterId, BatchLoad, Recovered, Recent, OpenNow, IsClusterStart;
    SameRowById(rows, snap, p, ById(snap, p.id).value);
    hide WellFormed, IsPartial;
  }

  lemma MergeFate(
    r: Reads, rows: map<string, Problem>, snap: seq<Problem>, t: Run, k: nat, q: Problem, p: Problem)
    requires WellFormed(rows) && IsPartial(snap, rows) && p in snap && IsTick(r, snap, t)
    requires k < |t.clusters| && IsTarget(q, t.clusters[k], FreshOpens(r, snap) + t.joined) && q.id == p.id
    ensures Fate(r, snap, t.clusters, p, MergeWrite(t.clusters[k].source, q).row)
  {
    var cl := t.clusters[k];
    TickClusters(r, snap, t);
    var c :| (c in cl.members || (c in FreshOpens(r, snap) + t.joined && c.service == cl.source))
      && c.existing == Some(q);
    hide IsTick, FreshOpens, ClustersApart, AreRecent, Resolving, IsRecent, WellFormed, IsPartial, Closed, SameHistory;
    hide BatchLoad, Recovered, OpenNow, Recent, ClusterServices, Grouped;
    TargetIsRecent(r, snap, t, k, q, c);
    SameRowById(rows, snap, p, q);
    RecentIff(r, rows, snap, p);
    SomeGroup(t.clusters, k, p.service);
    ClosedKeeps(p, " merged into " + ClusterId(cl.source));
  }

  lemma SomeGroup(clusters: seq<Cluster>, k: nat, service: string)
    requires k < |clusters| && service in ClusterServices(clusters[k])
    ensures service in Grouped(clusters)
  {
    hide ClusterServices;
  }

  lemma BlockFate(r: Reads, rows: map<string, Problem>, snap: seq<Problem>, t: Run, k: nat, p: Problem, a: Attempt)
    requires WellFormed(rows) && IsPartial(snap, rows) && p in snap && IsTick(r, snap, t)
    requires k < |t.blocks| && a in t.blocks[k] && a.write.row.id == p.id
    ensures Fate(r, snap, t.clusters, p, a.write.row)
  {
    hide *;
    TickBlock(r, snap, t, k);
    var cl, cands := t.clusters[k], FreshOpens(r, snap) + t.joined;
    var targets, critical := TargetsOf(cl, cands), IsCritical(cl.source, r, snap, t.joined);
    TargetsAre(cl, cands);
    BlockParts(t.blocks[k], cl, cands, targets, critical, r, snap);
    var i :| 0 <= i < |t.blocks[k]| && t.blocks[k][i] == a;
    if i == 0 {
      RefreshFate(r, rows, snap, cl, targets, critical, p, a.write.row, t.clusters);
    } else {
      MergedId(cl.source, targets[i - 1]);
      MergeFate(r, rows, snap, t, k, targets[i - 1], p);
    }
  }

  lemma MergedId(source: string, q: Problem)
    ensures MergeWrite(source, q).row.id == q.id
  {}

  // Whatever a tick attempts on a row of its snapshot.
  lemma AttemptFate(r: Reads, rows: map<string, Problem>, snap: seq<Problem>, t: Run, p: Problem, a: Attempt)
    requires WellFormed(rows) && GoodReads(r, rows) && IsPartial(snap, rows) && IsTick(r, snap, t)
    requires p in snap && a in t.All() && a.write.row.id == p.id
    ensures Fate(r, snap, t.clusters, p, a.write.row)
  {
    AllParts(t);
    TickShape(r, snap, t);
    hide *;
    if a in t.batch {
      WriteOf(t.batch, a);
      BatchFate(r, rows, snap, t.clusters, p, a.write);
    } else if a in Flatten(t.blocks) {
      var k := FlattenMember(t.blocks, a);
      BlockFate(r, rows, snap, t, k, p, a);
    } else if a in t.stale {
      WriteOf(t.stale, a);
      TickClusters(r, snap, t);
      StaleFate(r, rows, snap, t.joined, t.clusters, p, a.write);
    } else {
      AppliedFate(r, rows, snap, t, p, a);
    }
  }

  // ----- every reason closes -----

  lemma BatchCloses(r: Reads, rows: map<string, Problem>, snap: seq<Problem>, t: Run, p: Problem)
    requires WellFormed(rows) && IsPartial(snap, rows) && IsTick(r, snap, t) && p in snap && BatchLoad(r, p)
    ensures exists a :: a in t.All() && a.write.row.id == p.id && a.write.row.status == Resolved
  {
    BatchRowIff(r, rows, snap, p);
    CollectKeeps(snap, BatchStep(r), p);
    var w := BatchStep(r)(p).value;
    assert w.row.id == p.id && w.row.status == Resolved && w in BatchWrites(r, snap);
    hide *;
    TickShape(r, snap, t);
    AttemptFor(t.batch, w);
    AllParts(t);
  }

  lemma AttemptFor(run: seq<Attempt>, w: Write)
    requires w in Writes(run)
    ensures exists a :: a in run && a.write == w
  {
    var i :| 0 <= i < |run| && Writes(run)[i] == w;
    assert run[i] in run;
  }

  lemma StaleCloses(r: Reads, rows: map<string, Problem>, snap: seq<Problem>, t: Run, p: Problem)
    requires WellFormed(rows) && IsPartial(snap, rows) && IsTick(r, snap, t) && p in snap
    requires OwnsServiceCluster(p.ruleId) && !OpenNow(r, snap, p.service)
    ensures exists a :: a in t.All() && a.write.row.id == p.id && a.write.row.status == Resolved
  {
    TickClusters(r, snap, t);
    AnomalousIff(r, rows, snap, t.joined, p.service);
    var f := StaleStep(Anomalous(r, snap, t.joined));
    hide OpenNow, WellFormed, IsPartial, IsTick, ClustersApart, AreRecent, Anomalous;
    assert f(p).Some? && f(p).value.row.id == p.id && f(p).value.row.status == Resolved;
    CollectKeeps(snap, f, p);
    hide *;
    TickShape(r, snap, t);
    AttemptFor(t.stale, f(p).value);
    AllParts(t);
  }

  lemma RecoveryCloses(r: Reads, rows: map<string, Problem>, snap: seq<Problem>, t: Run, p: Problem)
    requires WellFormed(rows) && GoodReads(r, rows) && IsPartial(snap, rows) && IsTick(r, snap, t)
    requires p in snap && Recovered(r, p)
    ensures exists a :: a in t.All() && a.write.row.id == p.id && a.write.row.status == Resolved
  {
    RecoveredIff(r, rows, snap, p);
    var pa :| IsRecovery(r, snap, p, pa);
    assert pa in AllPending(r, snap) && pa.outcome == Verdict.Resolve
        && HasKey(p, MetricRule(pa.service, pa.metric), pa.service);
    hide *;
    ExistingIff(rows, snap, pa.service, pa.metric);
    ShownRow(rows, snap, p);
    AllParts(t);
    var suppressed, merged := Grouped(t.clusters), MergedIds(Flatten(t.blocks));
    if p.id in merged {
      var a := MergeOf(r, rows, snap, t, p.id);
    } else {
      TickShape(r, snap, t);
      OutcomeEnds(r, snap, suppressed, merged, pa, p);
      EndsResolved(r, pa, p, ApplyStep(r, snap, suppressed, merged)(pa).value.row);
      CollectKeeps(AllPending(r, snap), ApplyStep(r, snap, suppressed, merged), pa);
      AttemptFor(t.applied, ApplyStep(r, snap, suppressed, merged)(pa).value);
    }
  }

  lemma EndsResolved(r: Reads, pa: Pending, ex: Problem, row: Problem)
    requires Ends(r, pa, ex, row) && pa.outcome == Verdict.Resolve
    ensures row.id == ex.id && row.status == Resolved
  {}

  lemma MergeOf(r: Reads, rows: map<string, Problem>, snap: seq<Problem>, t: Run, id: string) returns (a: Attempt)
    requires WellFormed(rows) && IsPartial(snap, rows) && IsTick(r, snap, t) && id in MergedIds(Flatten(t.blocks))
    ensures a in Flatten(t.blocks) && a.write.row.id == id && a.write.row.status == Resolved
  {
    a :| a in Flatten(t.blocks) && IsMerge(a) && a.write.row.id == id;
    assert a.write.step.Merge?;
    hide *;
    var k := BlockOf(r, rows, snap, t, a);
    MergeIsResolved(r, snap, t.joined, t.clusters[k], a.write);
  }

  lemma MergeIsResolved(r: Reads, snap: seq<Problem>, joined: seq<Candidate>, cl: Cluster, w: Write)
    requires ClusterFact(r, snap, joined, cl, w) || MergeFact(r, snap, cl, w)
    requires w.step.Merge?
    ensures w.row.status == Resolved
  {
    hide Anomalous, Resolving, ClusterServices, Replaces;
  }

  // A recent row of a service in a cluster is one of the rows folded into it.
  lemma FoldedTarget(r: Reads, rows: map<string, Problem>, snap: seq<Problem>, t: Run, k: nat, p: Problem)
    returns (i: nat)
    requires WellFormed(rows) && IsPartial(snap, rows) && IsTick(r, snap, t) && p in snap && GoesOn(r, p)
    requires AreClusters(t.clusters, t.Cands(r, snap), r)
    requires k < |t.clusters| && p.service in ClusterServices(t.clusters[k])
    ensures var targets := TargetsOf(t.clusters[k], FreshOpens(r, snap) + t.joined);
            i < |targets| && targets[i].id == p.id
  {
    CandidatesOf(r, snap, t);
    JoinedIff(r, rows, snap, t.joined, p);
    ShownRow(rows, snap, p);
    assert p.id != "";
    var cands, cl := FreshOpens(r, snap) + t.joined, t.clusters[k];
    var c := Candidate(p.service, p.metric, p.severity, Some(p));
    assert c in cands;
    hide *;
    TargetsAre(cl, cands);
    CarriesCandidate(cands, t.clusters, r, k, c);
    IsFolded(cl, cands, c, p.id);
    i := TargetAt(TargetsOf(cl, cands), cl, cands, p.id);
  }

  lemma CarriesCandidate(cands: seq<Candidate>, clusters: seq<Cluster>, r: Reads, k: nat, c: Candidate)
    requires AreClusters(clusters, cands, r) && k < |clusters| && c in cands
               && c.service in ClusterServices(clusters[k])
    ensures c in clusters[k].members || c.service == clusters[k].source
  {
    var cl := clusters[k];
    hide IsClustering, Carried;
    if c.service in Services(cl.members) {
      ClustersAreAPacking(cands, r.adjacency.value, MIN_MEMBERS, clusters);
      assert GoodCluster(cl, cands, r.adjacency.value, MIN_MEMBERS);
      CarriedServices(cands, Services(cl.members), c);
      SameElements(cl.members, Carried(cands, Services(cl.members)));
    }
  }

  lemma IsFolded(cl: Cluster, cands: seq<Candidate>, c: Candidate, id: string)
    requires c in cands && (c in cl.members || c.service == cl.source)
    requires c.existing.Some? && c.existing.value.id == id != ""
    ensures id in RowIds(cl.members) + RowIds(SourceCandidates(cl.source, cands))
  {
    if c !in cl.members {
      var f := (c: Candidate) => if c.service == cl.source then Some(c) else None;
      CollectKeeps(cands, f, c);
    }
  }

  lemma TargetAt(targets: seq<Problem>, cl: Cluster, cands: seq<Candidate>, id: string) returns (i: nat)
    requires AreTargets(targets, cl, cands) && id in RowIds(cl.members) + RowIds(SourceCandidates(cl.source, cands))
    ensures i < |targets| && targets[i].id == id
  {
    hide IsTarget, RowIds, SourceCandidates, IdBefore;
    var q :| q in targets && q.id == id;
    i :| 0 <= i < |targets| && targets[i] == q;
  }

  lemma FoldCloses(r: Reads, rows: map<string, Problem>, snap: seq<Problem>, t: Run, p: Problem)
    requires WellFormed(rows) && IsPartial(snap, rows) && IsTick(r, snap, t) && p in snap && GoesOn(r, p)
    requires AreClusters(t.clusters, t.Cands(r, snap), r) && p.service in Grouped(t.clusters)
    requires forall a :: a in t.All() ==> a.ok
    ensures exists a :: a in t.All() && a.write.row.id == p.id && a.write.row.status == Resolved
  {
    var k :| 0 <= k < |t.clusters| && p.service in ClusterServices(t.clusters[k]);
    hide *;
    TickShape(r, snap, t);
    TickBlock(r, snap, t, k);
    AllParts(t);
    var cands, block := FreshOpens(r, snap) + t.joined, t.blocks[k];
    var targets := TargetsOf(t.clusters[k], cands);
    var i := FoldedTarget(r, rows, snap, t, k, p);
    AcceptedBlock(block, t.clusters[k], targets, IsCritical(t.clusters[k].source, r, snap, t.joined), r, snap);
    FlattenHas(t.blocks, k, block[0]);
    FlattenHas(t.blocks, k, block[i + 1]);
    MergedId(t.clusters[k].source, targets[i]);
  }

  lemma AcceptedBlock(
    block: seq<Attempt>, cl: Cluster, targets: seq<Problem>, critical: bool, r: Reads, snap: seq<Problem>)
    requires IsBlock(block, cl, targets, critical, r, snap)
    ensures |block| >= 1
    ensures block[0].ok ==>
              |block| == 1 + |targets| && forall i :: 0 <= i < |targets| ==>
                block[i + 1].write == MergeWrite(cl.source, targets[i])
  {
    hide IsClusterRow, MergeWrite;
    if block[0].ok {
      forall i | 0 <= i < |targets| ensures block[i + 1].write == MergeWrite(cl.source, targets[i]) {
        assert block[i + 1].write == MergeWrite(cl.source, targets[i + 1 - 1]);
      }
    }
  }

  // ----- which rows a tick closes -----

  // A row that the snapshot shows keeps its identity, key, start and, unless it
  // is the row of a cluster, its severity. A tick closes it only as load of a
  // batch service, because its series recovered, because it is recent and its
  // service is in a cluster, or as the row of a cluster whose source is no longer
  // anomalous; and when the store accepts everything, it closes all of these.
  lemma ClosedExactly(r: Reads, rows: map<string, Problem>, snap: seq<Problem>, t: Run, p: Problem)
    requires WellFormed(rows) && GoodReads(r, rows) && IsPartial(snap, rows) && p in snap
    requires IsTick(r, snap, t) && AreClusters(t.clusters, t.Cands(r, snap), r)
    ensures p.id in After(rows, t) && SameHistory(p, After(rows, t)[p.id])
    ensures After(rows, t)[p.id].status == Resolved ==> Closes(r, snap, t.clusters, p)
    ensures (forall a :: a in t.All() ==> a.ok) ==>
              (After(rows, t)[p.id].status == Resolved <==> Closes(r, snap, t.clusters, p))
  {
    hide *;
    FateOf(r, rows, snap, t, p);
    if (forall a :: a in t.All() ==> a.ok) && Closes(r, snap, t.clusters, p) {
      ReasonCloses(r, rows, snap, t, p);
      var a :| a in t.All() && a.write.row.id == p.id && a.write.row.status == Resolved;
      StoredWritesLast(r, rows, snap, t, a);
    }
  }

  lemma FateOf(r: Reads, rows: map<string, Problem>, snap: seq<Problem>, t: Run, p: Problem)
    requires WellFormed(rows) && GoodReads(r, rows) && IsPartial(snap, rows) && p in snap && IsTick(r, snap, t)
    ensures p.id in After(rows, t) && SameHistory(p, After(rows, t)[p.id])
    ensures After(rows, t)[p.id].status == Resolved ==> Closes(r, snap, t.clusters, p)
  {
    hide *;
    ShownRow(rows, snap, p);
    StillThere(r, rows, snap, t, p);
    Itself(p);
    if a :| a in t.All() && a.write.row.id == p.id && a.ok {
      StoredWritesLast(r, rows, snap, t, a);
      AttemptFate(r, rows, snap, t, p, a);
      FateIs(r, snap, t.clusters, p, a.write.row);
    }
  }

  lemma Itself(p: Problem)
    requires IsActive(p)
    ensures SameHistory(p, p) && p.status != Resolved
  {}

  lemma FateIs(r: Reads, snap: seq<Problem>, clusters: seq<Cluster>, p: Problem, row: Problem)
    requires Fate(r, snap, clusters, p, row)
    ensures SameHistory(p, row) && (row.status == Resolved ==> Closes(r, snap, clusters, p))
  {}

  lemma ReasonCloses(r: Reads, rows: map<string, Problem>, snap: seq<Problem>, t: Run, p: Problem)
    requires WellFormed(rows) && GoodReads(r, rows) && IsPartial(snap, rows) && p in snap
    requires IsTick(r, snap, t) && AreClusters(t.clusters, t.Cands(r, snap), r)
    requires (forall a :: a in t.All() ==> a.ok) && Closes(r, snap, t.clusters, p)
    ensures exists a :: a in t.All() && a.write.row.id == p.id && a.write.row.status == Resolved
  {
    hide *;
    ClosesIs(r, snap, t.clusters, p);
    if BatchLoad(r, p) {
      BatchCloses(r, rows, snap, t, p);
    } else if Recovered(r, p) {
      RecoveryCloses(r, rows, snap, t, p);
    } else if GoesOn(r, p) && p.service in Grouped(t.clusters) {
      FoldCloses(r, rows, snap, t, p);
    } else {
      StaleCloses(r, rows, snap, t, p);
    }
  }

  lemma ClosesIs(r: Reads, snap: seq<Problem>, clusters: seq<Cluster>, p: Problem)
    requires Closes(r, snap, clusters, p)
    ensures BatchLoad(r, p) || Recovered(r, p) || (GoesOn(r, p) && p.service in Grouped(clusters))
         || (OwnsServiceCluster(p.ruleId) && !OpenNow(r, snap, p.service))
  {
    hide BatchLoad, Recovered, Recent, OpenNow, Grouped;
  }

  // ----- which rows a tick opens -----

  // A pair whose series is anomalous, that the snapshot shows no row of, in no
  // cluster and not muted.
  ghost predicate OpensFor(r: Reads, snap: seq<Problem>, clusters: seq<Cluster>, service: string, metric: string) {
    && Judges(r, service, metric) && !HasRow(snap, service, metric)
    && r.verdict(service, metric, false) == Verdict.Open
    && service !in Grouped(clusters) && !r.calendarMutes(service, metric)
  }

  ghost predicate IsNewRow(r: Reads, service: string, metric: string, row: Problem) {
    && row.id == r.newId(service, metric) && HasKey(row, MetricRule(service, metric), service)
    && row.metric == metric && !row.external && row.status == Open && row.startedAt == r.now
    && row.severity == r.severity(service, metric) && row.note == r.text(service, metric)
  }

  lemma OpeningRow(
    r: Reads, snap: seq<Problem>, suppressed: set<string>, merged: set<string>, pa: Pending, w: Write)
    requires ApplyStep(r, snap, suppressed, merged)(pa) == Some(w) && w.step == OpenNew
    ensures IsNewRow(r, pa.service, pa.metric, w.row)
    ensures pa.outcome == Verdict.Open && Existing(snap, pa.service, pa.metric).None?
    ensures pa.service !in suppressed && !r.calendarMutes(pa.service, pa.metric)
  {
    hide Existing, MetricRule;
  }

  lemma OpeningFor(r: Reads, rows: map<string, Problem>, snap: seq<Problem>, t: Run, a: Attempt)
    requires WellFormed(rows) && GoodReads(r, rows) && IsPartial(snap, rows) && IsTick(r, snap, t)
    requires a in t.applied && a.write.step == OpenNew
    ensures exists service, metric ::
              OpensFor(r, snap, t.clusters, service, metric) && IsNewRow(r, service, metric, a.write.row)
  {
    hide *;
    var suppressed, merged := Grouped(t.clusters), MergedIds(Flatten(t.blocks));
    var pa := VerdictOf(r, rows, snap, t, a);
    OpeningRow(r, snap, suppressed, merged, pa, a.write);
    VerdictIff(r, rows, snap, pa);
    ExistingIff(rows, snap, pa.service, pa.metric);
    OpensForIs(r, snap, t.clusters, pa.service, pa.metric);
  }

  lemma OpensForIs(r: Reads, snap: seq<Problem>, clusters: seq<Cluster>, service: string, metric: string)
    ensures OpensFor(r, snap, clusters, service, metric)
       <==> (Judges(r, service, metric) && !HasRow(snap, service, metric)
             && r.verdict(service, metric, false) == Verdict.Open
             && service !in Grouped(clusters) && !r.calendarMutes(service, metric))
  {}

  lemma OpeningIsApplied(
    r: Reads, rows: map<string, Problem>, snap: seq<Problem>, t: Run, service: string, metric: string)
    returns (a: Attempt)
    requires WellFormed(rows) && IsPartial(snap, rows) && IsTick(r, snap, t)
    requires OpensFor(r, snap, t.clusters, service, metric)
    ensures a in t.applied && a.write.step == OpenNew && IsNewRow(r, service, metric, a.write.row)
  {
    hide *;
    var suppressed, merged := Grouped(t.clusters), MergedIds(Flatten(t.blocks));
    var pa, f := Pending(service, metric, Verdict.Open), ApplyStep(r, snap, suppressed, merged);
    OpensForIs(r, snap, t.clusters, service, metric);
    VerdictIff(r, rows, snap, pa);
    ExistingIff(rows, snap, service, metric);
    NewWrite(r, snap, suppressed, merged, pa);
    OpeningRow(r, snap, suppressed, merged, pa, f(pa).value);
    CollectKeeps(AllPending(r, snap), f, pa);
    TickShape(r, snap, t);
    AttemptFor(t.applied, f(pa).value);
    a :| a in t.applied && a.write == f(pa).value;
  }

  lemma NewWrite(r: Reads, snap: seq<Problem>, suppressed: set<string>, merged: set<string>, pa: Pending)
    requires pa.outcome == Verdict.Open && Existing(snap, pa.service, pa.metric).None?
    requires pa.service !in suppressed && !r.calendarMutes(pa.service, pa.metric)
    ensures var w := ApplyStep(r, snap, suppressed, merged)(pa);
            w.Some? && w.value.step == OpenNew
  {
    hide Existing, MetricRule;
  }

  // The rows that are in the table only after the tick, besides those of
  // clusters: each is the row of one such pair, open since now with the severity
  // of its verdict; and when the store accepts the openings, every such pair has
  // its row.
  lemma OpenedExactly(r: Reads, rows: map<string, Problem>, snap: seq<Problem>, t: Run)
    requires WellFormed(rows) && GoodReads(r, rows) && IsPartial(snap, rows) && IsTick(r, snap, t)
    ensures forall id :: id in After(rows, t) && id !in rows && !(CLUSTER_PREFIX <= id) ==>
              exists service, metric ::
                OpensFor(r, snap, t.clusters, service, metric) && IsNewRow(r, service, metric, After(rows, t)[id])
    ensures (forall a :: a in t.applied && a.write.step == OpenNew ==> a.ok) ==>
              forall service, metric :: OpensFor(r, snap, t.clusters, service, metric) ==>
                r.newId(service, metric) in After(rows, t)
                && IsNewRow(r, service, metric, After(rows, t)[r.newId(service, metric)])
  {
    hide *;
    forall id | id in After(rows, t) && id !in rows && !(CLUSTER_PREFIX <= id)
      ensures exists service, metric ::
                OpensFor(r, snap, t.clusters, service, metric) && IsNewRow(r, service, metric, After(rows, t)[id])
    {
      FinalRows(r, rows, snap, t, id);
      NewIsOpened(r, rows, snap, After(rows, t)[id]);
      var a :| a in t.applied && a.ok && a.write.step == OpenNew && a.write.row == After(rows, t)[id];
      OpeningFor(r, rows, snap, t, a);
    }
    if forall a :: a in t.applied && a.write.step == OpenNew ==> a.ok {
      forall service, metric | OpensFor(r, snap, t.clusters, service, metric)
        ensures r.newId(service, metric) in After(rows, t)
        ensures IsNewRow(r, service, metric, After(rows, t)[r.newId(service, metric)])
      {
        var a := OpeningIsApplied(r, rows, snap, t, service, metric);
        AllParts(t);
        StoredWritesLast(r, rows, snap, t, a);
        NewRowId(r, service, metric, a.write.row);
      }
    }
  }

  lemma NewRowId(r: Reads, service: string, metric: string, row: Problem)
    requires IsNewRow(r, service, metric, row)
    ensures row.id == r.newId(service, metric)
  {}

  lemma NewIsOpened(r: Reads, rows: map<string, Problem>, snap: seq<Problem>, row: Problem)
    requires IsPartial(snap, rows) && FinalRow(r, rows, snap, row) && row.id !in rows && !(CLUSTER_PREFIX <= row.id)
    ensures IsOpened(r, snap, row)
  {
    hide IsOpened, ClusterShape;
    if Replaced(snap, row) {
      ReplacedIsOld(r, rows, snap, row);
    }
  }

  // ----- rows that go on -----

  // A pair the tick cannot judge now leaves its open row as it is, rewritten so
  // that it does not look abandoned; every other verdict but "skip" reaches its
  // open row.
  lemma OpenRowIsReached(
    r: Reads, rows: map<string, Problem>, snap: seq<Problem>, service: string, metric: string, p: Problem)
    requires WellFormed(rows) && IsPartial(snap, rows) && p in snap && HasKey(p, MetricRule(service, metric), service)
    requires service in r.services && metric in r.tracked && !(metric == "request_rate" && r.isBatch(service))
    ensures Existing(snap, service, metric) == Some(p)
    ensures r.held(service, metric) ==> Pending(service, metric, Verdict.None) in AllPending(r, snap)
    ensures !r.held(service, metric) && r.verdict(service, metric, true) != Verdict.Skip ==>
              Pending(service, metric, r.verdict(service, metric, true)) in AllPending(r, snap)
  {
    ExistingIff(rows, snap, service, metric);
    PendingIff(r, snap, Pending(service, metric, Verdict.None));
    PendingIff(r, snap, Pending(service, metric, r.verdict(service, metric, true)));
    hide AllPending, WellFormed, IsPartial, MetricRule, Existing;
  }

  // ----- the row of a cluster -----

  // An anomaly of the cluster that is critical: a recent row of one of its
  // services, a new verdict on one of them, or any verdict on its source.
  ghost predicate CriticalIn(r: Reads, snap: seq<Problem>, cl: Cluster) {
    || (exists p :: p in snap && GoesOn(r, p) && p.service in ClusterServices(cl) && p.severity == "critical")
    || (exists service, metric ::
          && service in ClusterServices(cl) && Judges(r, service, metric) && r.severity(service, metric) == "critical"
          && r.verdict(service, metric, HasRow(snap, service, metric)) == Verdict.Open
          && (service == cl.source || !HasRow(snap, service, metric)))
  }

  lemma FreshIff(r: Reads, rows: map<string, Problem>, snap: seq<Problem>, c: Candidate)
    requires WellFormed(rows) && IsPartial(snap, rows)
    ensures c in FreshOpens(r, snap)
       <==> && Judges(r, c.service, c.metric) && !HasRow(snap, c.service, c.metric)
            && r.verdict(c.service, c.metric, false) == Verdict.Open
            && c == Candidate(c.service, c.metric, r.severity(c.service, c.metric), None)
  {
    var pa := Pending(c.service, c.metric, Verdict.Open);
    VerdictIff(r, rows, snap, pa);
    ExistingIff(rows, snap, c.service, c.metric);
    if c in FreshOpens(r, snap) {
      var from := CollectSource(AllPending(r, snap), FreshStep(r, snap), c);
      assert from == pa;
    }
    if pa in AllPending(r, snap) && Existing(snap, c.service, c.metric).None? {
      CollectKeeps(AllPending(r, snap), FreshStep(r, snap), pa);
    }
    hide AllPending, Existing, HasRow, WellFormed, IsPartial, Judges;
  }

  ghost predicate CriticalOpening(r: Reads, snap: seq<Problem>, service: string, metric: string) {
    && Judges(r, service, metric) && r.severity(service, metric) == "critical"
    && r.verdict(service, metric, HasRow(snap, service, metric)) == Verdict.Open
  }

  lemma CriticalOpensIff(r: Reads, rows: map<string, Problem>, snap: seq<Problem>, service: string)
    requires WellFormed(rows) && IsPartial(snap, rows)
    ensures service in CriticalOpens(r, AllPending(r, snap))
       <==> exists metric :: CriticalOpening(r, snap, service, metric)
  {
    hide AllPending, HasRow, WellFormed, IsPartial, Judges;
    if service in CriticalOpens(r, AllPending(r, snap)) {
      var pa :| pa in AllPending(r, snap) && pa.outcome == Verdict.Open
        && r.severity(pa.service, pa.metric) == "critical" && pa.service == service;
      VerdictIff(r, rows, snap, pa);
      assert CriticalOpening(r, snap, service, pa.metric);
    }
    if exists m :: CriticalOpening(r, snap, service, m) {
      var m :| CriticalOpening(r, snap, service, m);
      VerdictIff(r, rows, snap, Pending(service, m, Verdict.Open));
    }
  }

  ghost predicate CriticalRow(r: Reads, snap: seq<Problem>, cl: Cluster, p: Problem) {
    p in snap && GoesOn(r, p) && p.service in ClusterServices(cl) && p.severity == "critical"
  }

  ghost predicate CriticalVerdict(r: Reads, snap: seq<Problem>, cl: Cluster, service: string, metric: string) {
    && service in ClusterServices(cl) && Judges(r, service, metric) && r.severity(service, metric) == "critical"
    && r.verdict(service, metric, HasRow(snap, service, metric)) == Verdict.Open
    && (service == cl.source || !HasRow(snap, service, metric))
  }

  ghost predicate CriticalAs(r: Reads, snap: seq<Problem>, joined: seq<Candidate>, cl: Cluster) {
    IsCritical(cl.source, r, snap, joined) || exists m :: m in cl.members && m.severity == "critical"
  }

  // A critical candidate of the cluster comes from a critical row or verdict.
  lemma CandidateIsCritical(
    r: Reads, rows: map<string, Problem>, snap: seq<Problem>, joined: seq<Candidate>, cl: Cluster, c: Candidate)
    requires WellFormed(rows) && IsPartial(snap, rows) && AreRecent(joined, r, snap, Resolving(r, snap))
    requires c in FreshOpens(r, snap) + joined && c.service in ClusterServices(cl) && c.severity == "critical"
    ensures (exists p :: CriticalRow(r, snap, cl, p)) || exists s, m :: CriticalVerdict(r, snap, cl, s, m)
  {
    FreshIff(r, rows, snap, c);
    hide WellFormed, IsPartial, AreRecent, Resolving, Judges, HasRow, GoesOn, FreshOpens, ClusterServices;
    if c in FreshOpens(r, snap) {
      assert CriticalVerdict(r, snap, cl, c.service, c.metric);
    } else {
      JoinedSource(r, rows, snap, joined, c);
      assert CriticalRow(r, snap, cl, c.existing.value);
    }
  }

  lemma JoinedSource(r: Reads, rows: map<string, Problem>, snap: seq<Problem>, joined: seq<Candidate>, c: Candidate)
    requires WellFormed(rows) && IsPartial(snap, rows) && AreRecent(joined, r, snap, Resolving(r, snap)) && c in joined
    ensures c.existing.Some? && c.existing.value in snap && GoesOn(r, c.existing.value)
    ensures var p := c.existing.value; c == Candidate(p.service, p.metric, p.severity, Some(p))
  {
    var f := RecentStep(Resolving(r, snap), r.tracked, r.now);
    SameElements(joined, Collect(snap, f));
    var p := CollectSource(snap, f, c);
    RecentIff(r, rows, snap, p);
    hide WellFormed, IsPartial, Resolving, GoesOn;
  }

  lemma CriticalIff(r: Reads, rows: map<string, Problem>, snap: seq<Problem>, t: Run, k: nat)
    requires WellFormed(rows) && IsPartial(snap, rows) && IsTick(r, snap, t) && k < |t.clusters|
    requires AreClusters(t.clusters, t.Cands(r, snap), r)
    ensures CriticalAs(r, snap, t.joined, t.clusters[k]) <==> CriticalIn(r, snap, t.clusters[k])
  {
    var cl, cands := t.clusters[k], FreshOpens(r, snap) + t.joined;
    CandidatesOf(r, snap, t);
    TickClusters(r, snap, t);
    assert forall m :: m in cl.members ==> m in cands && m.service in ClusterServices(cl);
    assert cl.source in ClusterServices(cl);
    CriticalSplit(r, snap, cl);
    hide *;
    if CriticalAs(r, snap, t.joined, cl) {
      CriticalThere(r, rows, snap, t.joined, cl);
    }
    if CriticalIn(r, snap, cl) {
      if p :| CriticalRow(r, snap, cl, p) {
        RowMakesCritical(r, rows, snap, t.joined, t.clusters, k, p);
      } else {
        var s, m :| CriticalVerdict(r, snap, cl, s, m);
        VerdictMakesCritical(r, rows, snap, t.joined, t.clusters, k, s, m);
      }
    }
  }

  lemma CriticalSplit(r: Reads, snap: seq<Problem>, cl: Cluster)
    ensures CriticalIn(r, snap, cl)
       <==> (exists p :: CriticalRow(r, snap, cl, p)) || exists s, m :: CriticalVerdict(r, snap, cl, s, m)
  {
    hide GoesOn, Judges, HasRow, ClusterServices;
    if CriticalIn(r, snap, cl) {
      if p :| p in snap && GoesOn(r, p) && p.service in ClusterServices(cl) && p.severity == "critical" {
        assert CriticalRow(r, snap, cl, p);
      } else {
        var s, m :| && s in ClusterServices(cl) && Judges(r, s, m) && r.severity(s, m) == "critical"
          && r.verdict(s, m, HasRow(snap, s, m)) == Verdict.Open && (s == cl.source || !HasRow(snap, s, m));
        assert CriticalVerdict(r, snap, cl, s, m);
      }
    }
  }

  lemma CriticalThere(r: Reads, rows: map<string, Problem>, snap: seq<Problem>, joined: seq<Candidate>, cl: Cluster)
    requires WellFormed(rows) && IsPartial(snap, rows) && AreRecent(joined, r, snap, Resolving(r, snap))
    requires forall m :: m in cl.members ==> m in FreshOpens(r, snap) + joined && m.service in ClusterServices(cl)
    requires cl.source in ClusterServices(cl) && CriticalAs(r, snap, joined, cl)
    ensures (exists p :: CriticalRow(r, snap, cl, p)) || exists s, m :: CriticalVerdict(r, snap, cl, s, m)
  {
    CriticalOpensIff(r, rows, snap, cl.source);
    hide WellFormed, IsPartial, AreRecent, Resolving, Judges, HasRow, GoesOn, FreshOpens, ClusterServices;
    hide CriticalOpens;
    if m :| m in cl.members && m.severity == "critical" {
      CandidateIsCritical(r, rows, snap, joined, cl, m);
    } else if cl.source in CriticalJoined(joined) {
      var c :| c in joined && c.severity == "critical" && c.service == cl.source;
      CandidateIsCritical(r, rows, snap, joined, cl, c);
    } else {
      var m :| CriticalOpening(r, snap, cl.source, m);
      assert CriticalVerdict(r, snap, cl, cl.source, m);
    }
  }

  lemma MemberOrSource(
    r: Reads, snap: seq<Problem>, joined: seq<Candidate>, clusters: seq<Cluster>, k: nat, c: Candidate)
    requires AreClusters(clusters, FreshOpens(r, snap) + joined, r) && k < |clusters|
    requires c in FreshOpens(r, snap) + joined && c.service in ClusterServices(clusters[k]) && c.severity == "critical"
    requires c in joined || c.service == clusters[k].source ==>
               c in joined || clusters[k].source in CriticalOpens(r, AllPending(r, snap))
    ensures CriticalAs(r, snap, joined, clusters[k])
  {
    CarriesCandidate(FreshOpens(r, snap) + joined, clusters, r, k, c);
    hide AreClusters, FreshOpens, CriticalOpens, AllPending, ClusterServices;
  }

  lemma RowMakesCritical(
    r: Reads, rows: map<string, Problem>, snap: seq<Problem>, joined: seq<Candidate>, clusters: seq<Cluster>, k: nat,
    p: Problem)
    requires WellFormed(rows) && IsPartial(snap, rows) && AreRecent(joined, r, snap, Resolving(r, snap))
    requires AreClusters(clusters, FreshOpens(r, snap) + joined, r) && k < |clusters|
    requires CriticalRow(r, snap, clusters[k], p)
    ensures CriticalAs(r, snap, joined, clusters[k])
  {
    JoinedIff(r, rows, snap, joined, p);
    hide WellFormed, IsPartial, AreRecent, Resolving, AreClusters, FreshOpens, ClusterServices, CriticalAs, GoesOn;
    MemberOrSource(r, snap, joined, clusters, k, Candidate(p.service, p.metric, p.severity, Some(p)));
  }

  lemma VerdictMakesCritical(
    r: Reads, rows: map<string, Problem>, snap: seq<Problem>, joined: seq<Candidate>, clusters: seq<Cluster>, k: nat,
    service: string, metric: string)
    requires WellFormed(rows) && IsPartial(snap, rows)
    requires AreClusters(clusters, FreshOpens(r, snap) + joined, r) && k < |clusters|
    requires CriticalVerdict(r, snap, clusters[k], service, metric)
    ensures CriticalAs(r, snap, joined, clusters[k])
  {
    var c := Candidate(service, metric, "critical", None);
    CriticalOpensIff(r, rows, snap, service);
    FreshIff(r, rows, snap, c);
    hide WellFormed, IsPartial, AreClusters, FreshOpens, ClusterServices, Judges, HasRow, CriticalOpens;
    assert CriticalOpening(r, snap, service, metric);
    if service != clusters[k].source {
      hide CriticalAs;
      MemberOrSource(r, snap, joined, clusters, k, c);
    }
  }

  // What an accepted cluster row says: critical exactly when some anomaly of the
  // cluster is; and, when the snapshot shows no row of it, open since the
  // earliest start of the recent rows of its services, or since now.
  ghost predicate ClusterRowSays(r: Reads, snap: seq<Problem>, cl: Cluster, row: Problem) {
    && row.id == row.ruleId == ClusterId(cl.source)
    && (row.severity == "critical" <==> CriticalIn(r, snap, cl))
    && ((forall p :: p in snap ==> p.id != row.id) ==>
          && row.status == Open && row.service == cl.source && row.startedAt <= r.now
          && (forall p :: p in snap && GoesOn(r, p) && p.service in ClusterServices(cl) && p.startedAt > 0 ==>
                row.startedAt <= p.startedAt)
          && (row.startedAt == r.now || exists p :: p in snap && GoesOn(r, p) && p.service in ClusterServices(cl)
                                                    && p.startedAt == row.startedAt))
  }

  lemma TargetsIff(r: Reads, rows: map<string, Problem>, snap: seq<Problem>, t: Run, k: nat, p: Problem)
    requires WellFormed(rows) && IsPartial(snap, rows) && IsTick(r, snap, t) && k < |t.clusters|
    requires AreClusters(t.clusters, t.Cands(r, snap), r)
    ensures p in TargetsOf(t.clusters[k], FreshOpens(r, snap) + t.joined)
       <==> p in snap && GoesOn(r, p) && p.service in ClusterServices(t.clusters[k])
  {
    var cl, cands := t.clusters[k], FreshOpens(r, snap) + t.joined;
    hide *;
    TargetsAre(cl, cands);
    TargetsAreTargets(TargetsOf(cl, cands), cl, cands);
    if p in TargetsOf(cl, cands) {
      ShownTarget(r, rows, snap, t, k, p);
    }
    if p in snap && GoesOn(r, p) && p.service in ClusterServices(cl) {
      var i := FoldedTarget(r, rows, snap, t, k, p);
      var q := TargetsOf(cl, cands)[i];
      ShownTarget(r, rows, snap, t, k, q);
      SameRowById(rows, snap, p, q);
    }
  }

  lemma TargetsAreTargets(targets: seq<Problem>, cl: Cluster, cands: seq<Candidate>)
    requires AreTargets(targets, cl, cands)
    ensures forall t :: t in targets ==> IsTarget(t, cl, cands)
  {
    hide IsTarget;
  }

  lemma ShownTarget(r: Reads, rows: map<string, Problem>, snap: seq<Problem>, t: Run, k: nat, q: Problem)
    requires WellFormed(rows) && IsPartial(snap, rows) && IsTick(r, snap, t) && k < |t.clusters|
    requires IsTarget(q, t.clusters[k], FreshOpens(r, snap) + t.joined)
    ensures q in snap && GoesOn(r, q) && q.service in ClusterServices(t.clusters[k])
  {
    var cl := t.clusters[k];
    TickClusters(r, snap, t);
    var c :| (c in cl.members || (c in FreshOpens(r, snap) + t.joined && c.service == cl.source))
      && c.existing == Some(q);
    hide IsTick, FreshOpens, ClustersApart, AreRecent, Resolving, IsRecent, WellFormed, IsPartial, GoesOn;
    hide ClusterServices;
    TargetIsRecent(r, snap, t, k, q, c);
    RecentIff(r, rows, snap, q);
  }

  lemma StartSays(r: Reads, snap: seq<Problem>, cl: Cluster, row: Problem, targets: seq<Problem>)
    requires IsClusterStart(row.startedAt, r.now, targets)
    requires forall p :: p in targets <==> p in snap && GoesOn(r, p) && p.service in ClusterServices(cl)
    requires row.id == row.ruleId == ClusterId(cl.source) && row.status == Open && row.service == cl.source
    requires row.severity == "critical" <==> CriticalIn(r, snap, cl)
    ensures ClusterRowSays(r, snap, cl, row)
  {
    hide GoesOn, ClusterServices, CriticalIn, ClusterId;
  }

  lemma AcceptedClusterRow(r: Reads, rows: map<string, Problem>, snap: seq<Problem>, t: Run, k: nat)
    requires WellFormed(rows) && GoodReads(r, rows) && IsPartial(snap, rows) && IsTick(r, snap, t)
    requires AreClusters(t.clusters, t.Cands(r, snap), r) && k < |t.clusters|
    ensures k < |t.blocks| && t.blocks[k] != []
    ensures t.blocks[k][0].ok ==>
              var id := ClusterId(t.clusters[k].source);
              id in After(rows, t) && ClusterRowSays(r, snap, t.clusters[k], After(rows, t)[id])
  {
    hide *;
    TickShape(r, snap, t);
    TickBlock(r, snap, t, k);
    var cl, cands := t.clusters[k], FreshOpens(r, snap) + t.joined;
    var targets, critical := TargetsOf(cl, cands), IsCritical(cl.source, r, snap, t.joined);
    TargetsAre(cl, cands);
    BlockParts(t.blocks[k], cl, cands, targets, critical, r, snap);
    CriticalIff(r, rows, snap, t, k);
    forall p ensures p in targets <==> p in snap && GoesOn(r, p) && p.service in ClusterServices(cl) {
      TargetsIff(r, rows, snap, t, k, p);
    }
    if t.blocks[k][0].ok {
      StoredClustersStayActive(r, rows, snap, t, k);
      RowSays(r, rows, snap, cl, targets, t.joined, t.blocks[k][0].write.row);
    }
  }

  lemma RowSays(
    r: Reads, rows: map<string, Problem>, snap: seq<Problem>, cl: Cluster, targets: seq<Problem>,
    joined: seq<Candidate>, row: Problem)
    requires WellFormed(rows) && IsPartial(snap, rows)
    requires IsClusterRow(row, cl, targets, IsCritical(cl.source, r, snap, joined), r, snap)
    requires forall p :: p in targets <==> p in snap && GoesOn(r, p) && p.service in ClusterServices(cl)
    requires CriticalAs(r, snap, joined, cl) <==> CriticalIn(r, snap, cl)
    ensures ClusterRowSays(r, snap, cl, row)
  {
    ClusterRowShape(r, rows, snap, cl, row, targets, IsCritical(cl.source, r, snap, joined));
    FoundById(snap, ClusterId(cl.source));
    hide GoesOn, ClusterServices, CriticalIn, ClusterId, ById, WellFormed, IsPartial, IsCritical, IsClusterStart;
    var existing := Named(ById(snap, ClusterId(cl.source)));
    if existing.None? {
      StartSays(r, snap, cl, row, targets);
    }
  }
}
