// One tick of the detector over the table of problems: verdicts, closing of
// batch-load rows, clustering, closing of stale clusters, and the remaining
// verdicts. Every attempt to store a row may fail.
module Detector {
  import opened Problems
  import opened Sorting
  import opened Collecting
  import opened Clustering
  import Verdict
  import Decision

  // ----- what a tick reads -----

  // Everything outside the table of problems that one tick depends on. The
  // verdict on a service and metric may depend on whether it has an open row.
  datatype Reads = Reads(
    services: seq<string>,
    tracked: seq<string>,
    verdict: (string, string, bool) -> Verdict.Outcome,
    held: (string, string) -> bool,
    isBatch: string -> bool,
    settingsConfirmed: bool,
    severity: (string, string) -> string,
    text: (string, string) -> string,
    hasData: (string, string) -> bool,
    calendarMutes: (string, string) -> bool,
    adjacency: Option<string -> seq<Scored>>,
    clusterText: (Cluster, nat) -> string,
    newId: (string, string) -> string,
    now: int)

  const MIN_MEMBERS := 3
  const LOAD_METRIC := "request_rate"
  const JOIN_WINDOW := 1800000000000
  const SNAPSHOT_LIMIT := 50000

  // ----- the snapshot of active rows -----

  predicate HasKey(p: Problem, ruleId: string, service: string) {
    p.ruleId == ruleId && p.service == service
  }

  // The row of a rule and service that started last.
  function ByKey(snap: seq<Problem>, ruleId: string, service: string): Option<Problem> {
    if snap == [] then None
    else
      var best, p := ByKey(snap[..|snap| - 1], ruleId, service), snap[|snap| - 1];
      if !HasKey(p, ruleId, service) || (best.Some? && best.value.startedAt >= p.startedAt) then best else Some(p)
  }

  function ById(snap: seq<Problem>, id: string): Option<Problem> {
    if snap == [] then None
    else if snap[|snap| - 1].id == id then Some(snap[|snap| - 1])
    else ById(snap[..|snap| - 1], id)
  }

  function Named(p: Option<Problem>): Option<Problem> {
    if p.Some? && p.value.id != "" then p else None
  }

  // The open row of a (service, metric).
  function Existing(snap: seq<Problem>, service: string, metric: string): Option<Problem> {
    Named(ByKey(snap, MetricRule(service, metric), service))
  }

  ghost predicate Keyed(rows: map<string, Problem>) {
    forall id :: id in rows ==> rows[id].id == id
  }

  // A complete snapshot: every active row exactly once, in some order.
  ghost predicate IsSnapshot(snap: seq<Problem>, rows: map<string, Problem>) {
    && (forall i, j :: 0 <= i < j < |snap| ==> snap[i].id != snap[j].id)
    && (forall p :: p in snap <==> p.id in rows && rows[p.id] == p && IsActive(p))
  }

  // Some of the active rows, each once: a complete snapshot, the empty one of
  // a failed read, or one cut off at the row limit.
  ghost predicate IsPartial(snap: seq<Problem>, rows: map<string, Problem>) {
    && (forall i, j :: 0 <= i < j < |snap| ==> snap[i].id != snap[j].id)
    && (forall p :: p in snap ==> p.id in rows && rows[p.id] == p && IsActive(p))
  }

  lemma NothingShown(rows: map<string, Problem>)
    ensures IsPartial([], rows)
  {}

  // ----- phase 1: verdicts -----

  datatype Pending = Pending(service: string, metric: string, outcome: Verdict.Outcome)

  function ReachesApply(outcome: Verdict.Outcome, hasOpen: bool): bool {
    match outcome
    case Skip => false
    case None => hasOpen
    case Open => true
    case Resolve => true
  }

  predicate BatchLoadSkipped(r: Reads, service: string, metric: string) {
    metric == LOAD_METRIC && r.isBatch(service)
  }

  function VerdictOn(r: Reads, snap: seq<Problem>, service: string, metric: string): Verdict.Outcome {
    r.verdict(service, metric, Existing(snap, service, metric).Some?)
  }

  // What the tick relies on: no verdict resolves a row that is not there.
  ghost predicate ResolvesOnlyOpen(r: Reads) {
    forall service, metric :: r.verdict(service, metric, false) != Verdict.Resolve
  }

  // The verdicts of the metric detector on what it read of every series.
  function WithVerdicts(r: Reads, input: (string, string) -> Verdict.Input, knobs: Decision.Knobs): Reads {
    r.(verdict := (service: string, metric: string, hasOpen: bool) =>
        Verdict.Decide(input(service, metric).(hasOpen := hasOpen, batch := r.isBatch(service)), knobs))
  }

  lemma VerdictsResolveOnlyOpen(r: Reads, input: (string, string) -> Verdict.Input, knobs: Decision.Knobs)
    ensures ResolvesOnlyOpen(WithVerdicts(r, input, knobs))
  {
    hide Verdict.Decide;
    forall service, metric ensures WithVerdicts(r, input, knobs).verdict(service, metric, false) != Verdict.Resolve {
      var x := input(service, metric).(hasOpen := false, batch := r.isBatch(service));
      if Verdict.Decide(x, knobs) == Verdict.Resolve {
        Verdict.ResolvesOnlyOpenRows(x, knobs);
      }
    }
  }

  function PendingOn(r: Reads, snap: seq<Problem>, service: string, metric: string): Option<Pending> {
    var hasOpen := Existing(snap, service, metric).Some?;
    if BatchLoadSkipped(r, service, metric) then None
    else if r.held(service, metric) then
      if hasOpen then Some(Pending(service, metric, Verdict.None)) else None
    else if ReachesApply(VerdictOn(r, snap, service, metric), hasOpen) then
      Some(Pending(service, metric, VerdictOn(r, snap, service, metric)))
    else None
  }

  function PendingStep(r: Reads, snap: seq<Problem>): ((string, string)) -> Option<Pending> {
    (pair: (string, string)) => PendingOn(r, snap, pair.0, pair.1)
  }

  function RowOfPairs(service: string, metrics: seq<string>): seq<(string, string)> {
    seq(|metrics|, i requires 0 <= i < |metrics| => (service, metrics[i]))
  }

  function Pairs(services: seq<string>, metrics: seq<string>): seq<(string, string)> {
    if services == [] then []
    else Pairs(services[..|services| - 1], metrics) + RowOfPairs(services[|services| - 1], metrics)
  }

  function AllPending(r: Reads, snap: seq<Problem>): seq<Pending> {
    Collect(Pairs(r.services, r.tracked), PendingStep(r, snap))
  }

  method CollectPending(r: Reads, snap: seq<Problem>) returns (pending: seq<Pending>)
    ensures pending == AllPending(r, snap)
  {
    pending := [];
    hide *;
    NoPairs(r.tracked);
    NothingCollected(PendingStep(r, snap));
    assert r.services[..0] == [];
    for i := 0 to |r.services|
      invariant pending == Collect(Pairs(r.services[..i], r.tracked), PendingStep(r, snap))
    {
      var svc := r.services[i];
      ghost var before := Pairs(r.services[..i], r.tracked);
      FirstPair(svc, r.tracked);
      assert before + [] == before;
      for j := 0 to |r.tracked|
        invariant pending == Collect(before + RowOfPairs(svc, r.tracked[..j]), PendingStep(r, snap))
      {
        var m := r.tracked[j];
        var next := PendingOn(r, snap, svc, m);
        PairStep(r, snap, before, svc, j);
        if next.Some? {
          pending := pending + [next.value];
        }
      }
      assert r.tracked[..|r.tracked|] == r.tracked;
      PairsStep(r.services, i, r.tracked);
    }
    assert r.services[..|r.services|] == r.services;
    IsAllPending(r, snap);
  }

  lemma IsAllPending(r: Reads, snap: seq<Problem>)
    ensures AllPending(r, snap) == Collect(Pairs(r.services, r.tracked), PendingStep(r, snap))
  {}

  lemma NoPairs(metrics: seq<string>)
    ensures Pairs([], metrics) == []
  {}

  lemma FirstPair(svc: string, metrics: seq<string>)
    ensures RowOfPairs(svc, metrics[..0]) == []
  {}

  lemma PairsStep(services: seq<string>, i: nat, metrics: seq<string>)
    requires i < |services|
    ensures Pairs(services[..i + 1], metrics) == Pairs(services[..i], metrics) + RowOfPairs(services[i], metrics)
  {
    assert services[..i + 1][..i] == services[..i];
  }

  lemma PairStep(r: Reads, snap: seq<Problem>, before: seq<(string, string)>, svc: string, j: nat)
    requires j < |r.tracked|
    ensures Collect(before + RowOfPairs(svc, r.tracked[..j + 1]), PendingStep(r, snap))
         == Collect(before + RowOfPairs(svc, r.tracked[..j]), PendingStep(r, snap))
            + (match PendingOn(r, snap, svc, r.tracked[j]) case None => [] case Some(p) => [p])
  {
    var row := before + RowOfPairs(svc, r.tracked[..j]);
    assert before + RowOfPairs(svc, r.tracked[..j + 1]) == row + [(svc, r.tracked[j])];
    CollectNext(row, (svc, r.tracked[j]), PendingStep(r, snap));
  }

  // ----- writes -----

  datatype Step =
    BatchClose | ClusterWrite | Merge(into: string) | StaleClose | Touch | Refresh | OpenNew | CloseRow

  datatype Write = Write(step: Step, row: Problem)

  datatype Attempt = Attempt(write: Write, ok: bool)

  ghost function Writes(run: seq<Attempt>): (w: seq<Write>)
    ensures |w| == |run| && forall i :: 0 <= i < |run| ==> w[i] == run[i].write
  {
    seq(|run|, i requires 0 <= i < |run| => run[i].write)
  }

  lemma WritesAppend(run: seq<Attempt>, a: Attempt)
    ensures Writes(run + [a]) == Writes(run) + [a.write]
  {}

  lemma NoWrites()
    ensures Writes([]) == []
  {}

  // The table after a run of attempts.
  ghost function Replay(rows: map<string, Problem>, run: seq<Attempt>): map<string, Problem> {
    if run == [] then rows
    else
      var before, last := Replay(rows, run[..|run| - 1]), run[|run| - 1];
      if last.ok then before[last.write.row.id := last.write.row] else before
  }

  function Closed(p: Problem, note: string): Problem {
    p.(status := Resolved, note := p.note + note)
  }

  // ----- batch-load rows -----

  predicate IsBatchLoadRow(r: Reads, p: Problem) {
    && p.id != "" && !p.external && IsActive(p)
    && p.ruleId == MetricRule(p.service, LOAD_METRIC) && r.isBatch(p.service)
  }

  function BatchStep(r: Reads): Problem -> Option<Write> {
    (p: Problem) => if IsBatchLoadRow(r, p) then Some(Write(BatchClose, Closed(p, " batch load"))) else None
  }

  function BatchWrites(r: Reads, snap: seq<Problem>): seq<Write> {
    if r.settingsConfirmed then Collect(snap, BatchStep(r)) else []
  }

  // ----- phase 1.5: candidates -----

  predicate IsRecent(p: Problem, resolving: set<(string, string)>, tracked: seq<string>, now: int) {
    && p.id != "" && p.status == Open && p.service != "" && p.metric != ""
    && p.metric in tracked && !p.external
    && p.ruleId == MetricRule(p.service, p.metric)
    && p.startedAt >= now - JOIN_WINDOW && (p.ruleId, p.service) !in resolving
  }

  function RecentStep(resolving: set<(string, string)>, tracked: seq<string>, now: int): Problem -> Option<Candidate> {
    (p: Problem) =>
      if IsRecent(p, resolving, tracked, now) then Some(Candidate(p.service, p.metric, p.severity, Some(p))) else None
  }

  // The rows opened lately, by (service, metric).
  ghost predicate AreRecent(joined: seq<Candidate>, r: Reads, snap: seq<Problem>, resolving: set<(string, string)>) {
    && multiset(joined) == multiset(Collect(snap, RecentStep(resolving, r.tracked, r.now)))
    && SortedBy(joined, MemberBefore)
  }

  function FreshStep(r: Reads, snap: seq<Problem>): Pending -> Option<Candidate> {
    (pa: Pending) =>
      if pa.outcome == Verdict.Open && Existing(snap, pa.service, pa.metric).None?
      then Some(Candidate(pa.service, pa.metric, r.severity(pa.service, pa.metric), None))
      else None
  }

  function FreshOpens(r: Reads, snap: seq<Problem>): seq<Candidate> {
    Collect(AllPending(r, snap), FreshStep(r, snap))
  }

  ghost function OpenServices(pending: seq<Pending>): set<string> {
    set pa | pa in pending && pa.outcome == Verdict.Open :: pa.service
  }

  ghost function ResolvedKeys(pending: seq<Pending>): set<(string, string)> {
    set pa | pa in pending && pa.outcome == Verdict.Resolve :: (MetricRule(pa.service, pa.metric), pa.service)
  }

  // The services whose open verdicts are critical.
  ghost function CriticalOpens(r: Reads, pending: seq<Pending>): set<string> {
    set pa | pa in pending && pa.outcome == Verdict.Open
      && r.severity(pa.service, pa.metric) == "critical" :: pa.service
  }

  ghost function CriticalJoined(joined: seq<Candidate>): set<string> {
    set c | c in joined && c.severity == "critical" :: c.service
  }

  ghost predicate IsCritical(service: string, r: Reads, snap: seq<Problem>, joined: seq<Candidate>) {
    service in CriticalOpens(r, AllPending(r, snap)) + CriticalJoined(joined)
  }

  // ----- clusters -----

  predicate IdBefore(a: Problem, b: Problem) { StringLess(a.id, b.id) }

  // A row that is folded into a cluster: of a member, or of the source itself.
  ghost predicate IsTarget(p: Problem, cl: Cluster, cands: seq<Candidate>) {
    p.id != "" && exists c :: (c in cl.members || (c in cands && c.service == cl.source)) && c.existing == Some(p)
  }

  // targets lists the rows to fold in, each identity once, by identity.
  ghost predicate AreTargets(targets: seq<Problem>, cl: Cluster, cands: seq<Candidate>) {
    && (forall i, j :: 0 <= i < j < |targets| ==> IdBefore(targets[i], targets[j]))
    && (forall t :: t in targets ==> IsTarget(t, cl, cands))
    && IdsOf(targets) == RowIds(cl.members) + RowIds(SourceCandidates(cl.source, cands))
  }

  function AddTarget(out: seq<Problem>, p: Option<Problem>): seq<Problem> {
    if p.None? || p.value.id == "" || (exists i :: 0 <= i < |out| && out[i].id == p.value.id) then out
    else out + [p.value]
  }

  // The rows of some candidates, each identity once.
  function RowsOf(cands: seq<Candidate>): seq<Problem> {
    if cands == [] then [] else AddTarget(RowsOf(cands[..|cands| - 1]), cands[|cands| - 1].existing)
  }

  // The rows to fold in: of the members, and of the source itself.
  function TargetsOf(cl: Cluster, cands: seq<Candidate>): seq<Problem> {
    Sort(RowsOf(cl.members + SourceCandidates(cl.source, cands)), IdBefore)
  }

  ghost function IdsOf(rows: seq<Problem>): set<string> { set t | t in rows :: t.id }

  // The identities of the rows that candidates come from.
  ghost function RowIds(cands: seq<Candidate>): set<string> {
    set c | c in cands && c.existing.Some? && c.existing.value.id != "" :: c.existing.value.id
  }

  function SourceCandidates(source: string, cands: seq<Candidate>): seq<Candidate> {
    Collect(cands, (c: Candidate) => if c.service == source then Some(c) else None)
  }

  // The earliest known start among the folded rows, and now without any.
  ghost predicate IsClusterStart(start: int, now: int, targets: seq<Problem>) {
    && start <= now
    && (forall t :: t in targets && t.startedAt > 0 ==> start <= t.startedAt)
    && (start == now || exists t :: t in targets && t.startedAt == start > 0)
  }

  ghost predicate IsClusterRow(
    row: Problem, cl: Cluster, targets: seq<Problem>, critical: bool, r: Reads, snap: seq<Problem>)
  {
    var severity :=
      if critical || exists m :: m in cl.members && m.severity == "critical" then "critical" else "warning";
    var note := r.clusterText(cl, |targets|);
    match Named(ById(snap, ClusterId(cl.source)))
    case Some(existing) => row == existing.(note := note, severity := severity)
    case None =>
      && IsClusterStart(row.startedAt, r.now, targets)
      && row == Problem(ClusterId(cl.source), ClusterId(cl.source), cl.source, "cluster", false, severity, Open,
                        row.startedAt, note)
  }

  function MergeWrite(source: string, t: Problem): Write {
    Write(Merge(ClusterId(source)), Closed(t, " merged into " + ClusterId(source)))
  }

  // The attempts for one cluster: its own row, and only when that was stored
  // the rows folded into it.
  ghost predicate IsBlock(
    block: seq<Attempt>, cl: Cluster, targets: seq<Problem>, critical: bool, r: Reads, snap: seq<Problem>)
  {
    && |block| >= 1
    && block[0].write.step == ClusterWrite
    && IsClusterRow(block[0].write.row, cl, targets, critical, r, snap)
    && |block| == (if block[0].ok then 1 + |targets| else 1)
    && forall i :: 1 <= i < |block| ==> block[i].write == MergeWrite(cl.source, targets[i - 1])
  }

  ghost predicate HasBlock(
    block: seq<Attempt>, cl: Cluster, joined: seq<Candidate>, r: Reads, snap: seq<Problem>)
  {
    IsBlock(block, cl, TargetsOf(cl, FreshOpens(r, snap) + joined), IsCritical(cl.source, r, snap, joined), r, snap)
  }

  ghost predicate AreClusters(clusters: seq<Cluster>, cands: seq<Candidate>, r: Reads) {
    match r.adjacency
    case None => clusters == []
    case Some(rank) => IsClustering(cands, rank, MIN_MEMBERS, clusters)
  }

  // The clusters are disjoint, rooted at candidate services, and made of candidates.
  ghost predicate ClustersFit(clusters: seq<Cluster>, cands: seq<Candidate>) {
    clusters == []
    || (var before, cl := clusters[..|clusters| - 1], clusters[|clusters| - 1];
        && ClustersFit(before, cands)
        && cl.source in Services(cands) && Elements(cl.members) <= Elements(cands)
        && ClusterServices(cl) !! Grouped(before))
  }

  // One block of writes for every cluster.
  ghost predicate HaveBlocks(
    blocks: seq<seq<Attempt>>, clusters: seq<Cluster>, joined: seq<Candidate>, r: Reads, snap: seq<Problem>)
  {
    if blocks == [] || clusters == [] then blocks == [] && clusters == []
    else
      && HaveBlocks(blocks[..|blocks| - 1], clusters[..|clusters| - 1], joined, r, snap)
      && HasBlock(blocks[|blocks| - 1], clusters[|clusters| - 1], joined, r, snap)
  }

  ghost function Flatten(blocks: seq<seq<Attempt>>): seq<Attempt> {
    if blocks == [] then [] else Flatten(blocks[..|blocks| - 1]) + blocks[|blocks| - 1]
  }

  ghost predicate IsMerge(a: Attempt) { a.ok && a.write.step.Merge? }

  // Identities of the rows that were folded into a cluster.
  ghost function MergedIds(run: seq<Attempt>): set<string> {
    set a | a in run && IsMerge(a) :: a.write.row.id
  }

  // ----- stale clusters -----

  function StaleStep(anomalous: set<string>): Problem -> Option<Write> {
    (p: Problem) => if OwnsServiceCluster(p.ruleId) && p.service !in anomalous
         then Some(Write(StaleClose, Closed(p, ""))) else None
  }

  // ----- phase 2: the other verdicts -----

  // The write a verdict asks for, given the snapshot.
  function OutcomeWrite(r: Reads, snap: seq<Problem>, pa: Pending): Option<Write> {
    var (svc, m) := (pa.service, pa.metric);
    match Existing(snap, svc, m)
    case None =>
      if pa.outcome != Verdict.Open || r.calendarMutes(svc, m) then None
      else Some(Write(OpenNew, Problem(r.newId(svc, m), MetricRule(svc, m), svc, m, false, r.severity(svc, m), Open,
                                       r.now, r.text(svc, m))))
    case Some(ex) =>
      match pa.outcome
      case Skip => None
      case None => Some(Write(Touch, ex))
      case Open => Some(Write(Refresh, ex.(note := r.text(svc, m))))
      case Resolve => Some(Write(CloseRow, Closed(ex, if r.hasData(svc, m) then "" else " signal loss")))
  }

  function ApplyStep(r: Reads, snap: seq<Problem>, suppressed: set<string>, merged: set<string>)
    : Pending -> Option<Write>
  {
    (pa: Pending) =>
      var ex := Existing(snap, pa.service, pa.metric);
      if ex.Some? && ex.value.id in merged then None
      else if pa.outcome == Verdict.Open && pa.service in suppressed && ex.None? then None
      else OutcomeWrite(r, snap, pa)
  }

  // ----- the whole tick -----

  datatype Run = Run(
    joined: seq<Candidate>, clusters: seq<Cluster>,
    batch: seq<Attempt>, blocks: seq<seq<Attempt>>, stale: seq<Attempt>, applied: seq<Attempt>)
  {
    ghost function All(): seq<Attempt> { batch + (Flatten(blocks) + (stale + applied)) }
    ghost function Suppressed(): set<string> { Grouped(clusters) }
    ghost function Cands(r: Reads, snap: seq<Problem>): seq<Candidate> { FreshOpens(r, snap) + joined }
  }

  ghost function Resolving(r: Reads, snap: seq<Problem>): set<(string, string)> {
    (set w | w in BatchWrites(r, snap) :: (w.row.ruleId, w.row.service)) + ResolvedKeys(AllPending(r, snap))
  }

  // The services with an open verdict or a joined row.
  ghost function Anomalous(r: Reads, snap: seq<Problem>, joined: seq<Candidate>): set<string> {
    OpenServices(AllPending(r, snap)) + Services(joined)
  }

  // What every tick attempts to store: the specification of Scan, for whatever
  // fitting clusters were detected.
  ghost predicate IsTick(r: Reads, snap: seq<Problem>, t: Run) {
    && AreRecent(t.joined, r, snap, Resolving(r, snap))
    && ClustersFit(t.clusters, t.Cands(r, snap))
    && Writes(t.batch) == BatchWrites(r, snap)
    && HaveBlocks(t.blocks, t.clusters, t.joined, r, snap)
    && Writes(t.stale) == Collect(snap, StaleStep(Anomalous(r, snap, t.joined)))
    && Writes(t.applied)
       == Collect(AllPending(r, snap), ApplyStep(r, snap, t.Suppressed(), MergedIds(Flatten(t.blocks))))
  }

  // ----- the detector -----

  class Detector {
    var rows: map<string, Problem>
    ghost var base: map<string, Problem>
    ghost var log: seq<Attempt>

    // The table is what the logged attempts made of it.
    ghost predicate Valid()
      reads this
    {
      rows == Replay(base, log)
    }

    constructor ()
      ensures Valid() && rows == map[] && log == []
    {
      rows, base, log := map[], map[], [];
    }

    // Store a row; the store may refuse.
    method Upsert(ghost step: Step, p: Problem) returns (ok: bool)
      requires Valid()
      modifies this
      ensures Valid() && base == old(base)
      ensures log == old(log) + [Attempt(Write(step, p), ok)]
      ensures rows == if ok then old(rows)[p.id := p] else old(rows)
    {
      ok := *;
      if ok {
        rows := rows[p.id := p];
      }
      log := log + [Attempt(Write(step, p), ok)];
      assert log[..|log| - 1] == old(log);
    }

    // All open and acknowledged rows, or as many of them as the limit allows.
    method OpenProblemsSnapshot() returns (snap: seq<Problem>)
      requires Keyed(rows)
      ensures IsPartial(snap, rows) && |snap| <= SNAPSHOT_LIMIT
      ensures IsSnapshot(snap, rows) || |snap| == SNAPSHOT_LIMIT
    {
      snap := [];
      var todo := rows.Keys;
      while todo != {} && |snap| < SNAPSHOT_LIMIT
        invariant |snap| <= SNAPSHOT_LIMIT
        invariant todo <= rows.Keys
        invariant forall i, j :: 0 <= i < j < |snap| ==> snap[i].id != snap[j].id
        invariant forall p :: p in snap <==> p.id in rows && rows[p.id] == p && IsActive(p) && p.id !in todo
        decreases todo
      {
        var id :| id in todo;
        if IsActive(rows[id]) {
          snap := snap + [rows[id]];
        }
        todo := todo - {id};
      }
    }

    // One tick. A snapshot that cannot be read counts as an empty one.
    method Tick(reads0: Reads, input: (string, string) -> Verdict.Input, knobs: Decision.Knobs, readable: bool)
      returns (ghost r: Reads, ghost snap: seq<Problem>, ghost t: Run)
      requires Valid() && Keyed(rows)
      modifies this
      ensures Valid() && base == old(rows) && log == t.All()
      ensures IsPartial(snap, old(rows)) && (!readable ==> snap == [])
      ensures readable ==> IsSnapshot(snap, old(rows)) || |snap| == SNAPSHOT_LIMIT
      ensures r == WithVerdicts(reads0, input, knobs)
      ensures IsTick(r, snap, t) && AreClusters(t.clusters, t.Cands(r, snap), r)
      ensures rows == Replay(old(rows), t.All())
    {
      var now := WithVerdicts(reads0, input, knobs);
      r := now;
      hide IsTick, IsSnapshot, IsPartial, WithVerdicts, ResolvesOnlyOpen, AreClusters, Keyed;
      VerdictsResolveOnlyOpen(reads0, input, knobs);
      NothingShown(rows);
      var read := [];
      if readable {
        read := OpenProblemsSnapshot();
      }
      snap := read;
      base, log := rows, [];
      t := Scan(now, read);
      assert [] + t.All() == t.All();
    }

    // Clustering, when there are candidates enough and the call graph was read.
    method ClusterCandidates(r: Reads, snap: seq<Problem>, joined: seq<Candidate>, cands: seq<Candidate>,
                             severity: map<string, string>)
      returns (suppressed: set<string>, merged: set<string>, ghost formed: seq<Cluster>,
               ghost blocks: seq<seq<Attempt>>)
      requires Valid()
      requires cands == FreshOpens(r, snap) + joined
      requires forall s :: s in CriticalIn(severity) <==> IsCritical(s, r, snap, joined)
      modifies this
      ensures Valid() && base == old(base) && log == old(log) + Flatten(blocks)
      ensures AreClusters(formed, cands, r) && ClustersFit(formed, cands)
      ensures HaveBlocks(blocks, formed, joined, r, snap)
      ensures suppressed == Grouped(formed) && merged == MergedIds(Flatten(blocks))
    {
      hide *;
      suppressed, merged, formed, blocks := {}, {}, [], [];
      NoBlocks();
      NothingMerged();
      NoClusters(cands, r);
      if |cands| >= MIN_MEMBERS && r.adjacency.Some? {
        var clusters := DetectAnomalyClusters(cands, r.adjacency.value, MIN_MEMBERS);
        ClustersAre(clusters, cands, r);
        formed := clusters;
        if |clusters| > 0 {
          suppressed, merged, blocks := ApplyClusters(r, snap, clusters, joined, cands, severity);
        } else {
          assert clusters == [];
        }
      }
      ClustersAlwaysFit(formed, cands, r);
    }

    // The phases of a tick over one snapshot.
    method Scan(r: Reads, snap: seq<Problem>) returns (ghost t: Run)
      requires Valid() && ResolvesOnlyOpen(r)
      modifies this
      ensures Valid() && base == old(base) && log == old(log) + t.All()
      ensures IsTick(r, snap, t) && AreClusters(t.clusters, t.Cands(r, snap), r)
    {
      hide *;
      var pending := CollectPending(r, snap);
      var batchKeys;
      ghost var batch, blocks, stale, applied;
      batchKeys, batch := ResolveBatchLoadProblems(r, snap);
      var resolving, open, severity, opening := GatherOpens(r, snap, pending);
      ResolvingIs(r, snap);
      var joined := RecentOpenCandidates(r, snap, resolving + batchKeys);
      var anomalous;
      anomalous, severity := CountJoined(joined, open, severity);
      AnomalousIs(r, snap, joined, severity);
      var cands := opening + joined;
      var suppressed, merged;
      ghost var clusters;
      suppressed, merged, clusters, blocks := ClusterCandidates(r, snap, joined, cands, severity);
      stale := ResolveStaleClusters(snap, anomalous);
      ResolvesExisting(r, snap);
      applied := ApplyPending(r, snap, pending, suppressed, merged);
      t := Run(joined, clusters, batch, blocks, stale, applied);
      TickFormed(r, snap, t);
      AllWrites(t);
    }

    method UpsertAll(ws: seq<Write>) returns (ghost run: seq<Attempt>)
      requires Valid()
      modifies this
      ensures Valid() && base == old(base) && log == old(log) + run
      ensures Writes(run) == ws
    {
      run := [];
      hide *;
      NoWrites();
      for i := 0 to |ws|
        invariant Valid() && base == old(base) && log == old(log) + run
        invariant Writes(run) == ws[..i]
      {
        var ok := Upsert(ws[i].step, ws[i].row);
        WritesAppend(run, Attempt(ws[i], ok));
        run := run + [Attempt(ws[i], ok)];
      }
    }

    // The keys of the closed rows, whether or not their closing was stored.
    method ResolveBatchLoadProblems(r: Reads, snap: seq<Problem>)
      returns (resolving: set<(string, string)>, ghost run: seq<Attempt>)
      requires Valid()
      modifies this
      ensures Valid() && base == old(base) && log == old(log) + run
      ensures Writes(run) == BatchWrites(r, snap)
      ensures resolving == set w | w in BatchWrites(r, snap) :: (w.row.ruleId, w.row.service)
    {
      resolving, run := {}, [];
      if !r.settingsConfirmed {
        return;
      }
      var resolved := BatchLoadResolutions(r, snap);
      run := UpsertAll(resolved);
      resolving := set w | w in resolved :: (w.row.ruleId, w.row.service);
    }

    // Close the folded rows; the ones whose closing was stored are merged.
    method MergeIntoCluster(
      source: string, targets: seq<Problem>)
      returns (merged: set<string>, ghost run: seq<Attempt>)
      requires Valid()
      modifies this
      ensures Valid() && base == old(base) && log == old(log) + run
      ensures |run| == |targets| && forall i :: 0 <= i < |run| ==> run[i].write == MergeWrite(source, targets[i])
      ensures merged == MergedIds(run)
    {
      merged, run := {}, [];
      hide *;
      NothingMerged();
      for i := 0 to |targets|
        invariant Valid() && base == old(base) && log == old(log) + run
        invariant |run| == i && forall j :: 0 <= j < i ==> run[j].write == MergeWrite(source, targets[j])
        invariant merged == MergedIds(run)
      {
        var t := targets[i];
        var w := MergeWrite(source, t);
        var ok := Upsert(w.step, w.row);
        MergedNext(run, source, t, ok);
        run := run + [Attempt(w, ok)];
        if ok {
          merged := merged + {t.id};
        }
      }
    }

    // One cluster: its row, and then the rows folded into it.
    method ApplyCluster(r: Reads, snap: seq<Problem>, cl: Cluster, cands: seq<Candidate>, sourceSeverity: string)
      returns (merged: set<string>, ghost block: seq<Attempt>)
      requires Valid()
      modifies this
      ensures Valid() && base == old(base) && log == old(log) + block
      ensures IsBlock(block, cl, TargetsOf(cl, cands), sourceSeverity == "critical", r, snap)
      ensures merged == MergedIds(block)
    {
      hide *;
      var listed := MergeTargets(cl, cands);
      var row := ClusterRow(r, snap, cl, listed, sourceSeverity);
      var ok := Upsert(ClusterWrite, row);
      ghost var first := Attempt(Write(ClusterWrite, row), ok);
      FirstIsNoMerge(first);
      if !ok {
        block, merged := [first], {};
        BlockFormed(first, [], cl, listed, sourceSeverity == "critical", r, snap);
        assert [first] + [] == [first];
        return;
      }
      ghost var run;
      merged, run := MergeIntoCluster(cl.source, listed);
      block := [first] + run;
      BlockFormed(first, run, cl, listed, sourceSeverity == "critical", r, snap);
      MergedConcat([first], run);
      assert old(log) + ([first] + run) == old(log) + [first] + run;
    }

    method ApplyClusters(r: Reads, snap: seq<Problem>, clusters: seq<Cluster>, joined: seq<Candidate>,
                         cands: seq<Candidate>, severity: map<string, string>)
      returns (suppressed: set<string>, merged: set<string>, ghost blocks: seq<seq<Attempt>>)
      requires Valid()
      requires cands == FreshOpens(r, snap) + joined
      requires forall s :: s in CriticalIn(severity) <==> IsCritical(s, r, snap, joined)
      modifies this
      ensures Valid() && base == old(base) && log == old(log) + Flatten(blocks)
      ensures HaveBlocks(blocks, clusters, joined, r, snap)
      ensures suppressed == Grouped(clusters) && merged == MergedIds(Flatten(blocks))
    {
      suppressed, merged, blocks := {}, {}, [];
      hide *;
      NothingMerged();
      NoBlocks();
      assert clusters[..0] == [];
      for k := 0 to |clusters|
        invariant Valid() && base == old(base) && log == old(log) + Flatten(blocks)
        invariant HaveBlocks(blocks, clusters[..k], joined, r, snap)
        invariant suppressed == Grouped(clusters[..k]) && merged == MergedIds(Flatten(blocks))
      {
        var cl := clusters[k];
        GroupedNext(clusters, k);
        suppressed := suppressed + {cl.source} + set m | m in cl.members :: m.service;
        var sourceSeverity := if cl.source in severity then severity[cl.source] else "";
        SeverityKnown(severity, cl.source);
        ghost var was := log;
        var now;
        ghost var block;
        now, block := ApplyCluster(r, snap, cl, cands, sourceSeverity);
        BlockDone(block, cl, joined, cands, r, snap, sourceSeverity == "critical");
        MoreBlocks(blocks, block, clusters, k, joined, r, snap);
        FlattenNext(blocks, block);
        MergedConcat(Flatten(blocks), block);
        merged := merged + now;
        assert old(log) + Flatten(blocks) + block == old(log) + (Flatten(blocks) + block);
        blocks := blocks + [block];
      }
      assert clusters[..|clusters|] == clusters;
    }

    method ResolveStaleClusters(snap: seq<Problem>, anomalous: set<string>) returns (ghost run: seq<Attempt>)
      requires Valid()
      modifies this
      ensures Valid() && base == old(base) && log == old(log) + run
      ensures Writes(run) == Collect(snap, StaleStep(anomalous))
    {
      run := [];
      hide *;
      NoWrites();
      NothingCollected(StaleStep(anomalous));
      assert snap[..0] == [];
      for i := 0 to |snap|
        invariant Valid() && base == old(base) && log == old(log) + run
        invariant Writes(run) == Collect(snap[..i], StaleStep(anomalous))
      {
        var p := snap[i];
        CollectStep(snap, i, StaleStep(anomalous));
        StaleStepIs(anomalous, p);
        if OwnsServiceCluster(p.ruleId) && p.service !in anomalous {
          var ok := Upsert(StaleClose, Closed(p, ""));
          WritesAppend(run, Attempt(Write(StaleClose, Closed(p, "")), ok));
          run := run + [Attempt(Write(StaleClose, Closed(p, "")), ok)];
        }
      }
      assert snap[..|snap|] == snap;
    }

    method ApplyPending(
      r: Reads, snap: seq<Problem>, pending: seq<Pending>, suppressed: set<string>, merged: set<string>)
      returns (ghost run: seq<Attempt>)
      requires Valid()
      requires forall pa :: pa in pending && pa.outcome == Verdict.Resolve ==>
                 Existing(snap, pa.service, pa.metric).Some?
      modifies this
      ensures Valid() && base == old(base) && log == old(log) + run
      ensures Writes(run) == Collect(pending, ApplyStep(r, snap, suppressed, merged))
    {
      run := [];
      hide *;
      NoWrites();
      NothingCollected(ApplyStep(r, snap, suppressed, merged));
      assert pending[..0] == [];
      for i := 0 to |pending|
        invariant Valid() && base == old(base) && log == old(log) + run
        invariant Writes(run) == Collect(pending[..i], ApplyStep(r, snap, suppressed, merged))
      {
        var pa := pending[i];
        CollectStep(pending, i, ApplyStep(r, snap, suppressed, merged));
        ApplyStepIs(r, snap, suppressed, merged, pa);
        var ex := Existing(snap, pa.service, pa.metric);
        if ex.Some? && ex.value.id in merged {
          continue;
        }
        if pa.outcome == Verdict.Open && pa.service in suppressed && ex.None? {
          continue;
        }
        ghost var more := ApplyOutcome(r, snap, pa);
        if more != [] {
          WritesAppend(run, more[0]);
          assert more == [more[0]];
        }
        run := run + more;
      }
      assert pending[..|pending|] == pending;
    }

    // The side effects of one verdict. A resolving verdict dereferences the row.
    method ApplyOutcome(r: Reads, snap: seq<Problem>, pa: Pending) returns (ghost run: seq<Attempt>)
      requires Valid()
      requires pa.outcome == Verdict.Resolve ==> Existing(snap, pa.service, pa.metric).Some?
      modifies this
      ensures Valid() && base == old(base) && log == old(log) + run
      ensures |run| <= 1
      ensures OutcomeWrite(r, snap, pa) == if run == [] then None else Some(run[0].write)
    {
      var svc, m := pa.service, pa.metric;
      var open := Existing(snap, svc, m);
      run := [];
      hide Valid, Existing;
      match pa.outcome
      case Skip =>
      case None =>
        if open.Some? {
          var ok := Upsert(Touch, open.value);
          run := [Attempt(Write(Touch, open.value), ok)];
        }
      case Open =>
        if open.None? && r.calendarMutes(svc, m) {
          return;
        }
        if open.Some? {
          var p := open.value.(note := r.text(svc, m));
          var ok := Upsert(Refresh, p);
          run := [Attempt(Write(Refresh, p), ok)];
          return;
        }
        var p := Problem(r.newId(svc, m), MetricRule(svc, m), svc, m, false, r.severity(svc, m), Open,
                         r.now, r.text(svc, m));
        var ok := Upsert(OpenNew, p);
        run := [Attempt(Write(OpenNew, p), ok)];
      case Resolve =>
        var p := Closed(open.value, if r.hasData(svc, m) then "" else " signal loss");
        var ok := Upsert(CloseRow, p);
        run := [Attempt(Write(CloseRow, p), ok)];
    }
  }

  lemma StaleStepIs(anomalous: set<string>, p: Problem)
    ensures StaleStep(anomalous)(p)
         == if OwnsServiceCluster(p.ruleId) && p.service !in anomalous
            then Some(Write(StaleClose, Closed(p, ""))) else None
  {}

  lemma ApplyStepIs(r: Reads, snap: seq<Problem>, suppressed: set<string>, merged: set<string>, pa: Pending)
    ensures var ex := Existing(snap, pa.service, pa.metric);
            ApplyStep(r, snap, suppressed, merged)(pa)
            == if ex.Some? && ex.value.id in merged then None
               else if pa.outcome == Verdict.Open && pa.service in suppressed && ex.None? then None
               else OutcomeWrite(r, snap, pa)
  {}

  method BatchLoadResolutions(r: Reads, snap: seq<Problem>) returns (out: seq<Write>)
    ensures out == Collect(snap, BatchStep(r))
  {
    out := [];
    assert snap[..0] == [];
    for i := 0 to |snap|
      invariant out == Collect(snap[..i], BatchStep(r))
    {
      var p := snap[i];
      CollectStep(snap, i, BatchStep(r));
      if p.id == "" || p.external || !IsActive(p) {
        continue;
      }
      if p.ruleId != MetricRule(p.service, LOAD_METRIC) || !r.isBatch(p.service) {
        continue;
      }
      out := out + [Write(BatchClose, Closed(p, " batch load"))];
    }
    assert snap[..|snap|] == snap;
  }

  // ----- gathering the candidates -----

  ghost function CriticalIn(severity: map<string, string>): set<string> {
    set s | s in severity && severity[s] == "critical"
  }

  // The severity a source keeps: critical wins, else the first known one.
  function NoteSeverity(severity: map<string, string>, service: string, s: string): map<string, string> {
    if s == "critical" || (if service in severity then severity[service] else "") == "" then severity[service := s]
    else severity
  }

  lemma NoteSeverityIs(severity: map<string, string>, service: string, s: string)
    ensures CriticalIn(NoteSeverity(severity, service, s))
         == CriticalIn(severity) + if s == "critical" then {service} else {}
  {}

  lemma OpensNext(r: Reads, snap: seq<Problem>, pending: seq<Pending>, i: nat)
    requires i < |pending|
    ensures var pa, before, next := pending[i], pending[..i], pending[..i + 1];
      && ResolvedKeys(next) == ResolvedKeys(before)
           + (if pa.outcome == Verdict.Resolve then {(MetricRule(pa.service, pa.metric), pa.service)} else {})
      && OpenServices(next) == OpenServices(before) + (if pa.outcome == Verdict.Open then {pa.service} else {})
      && CriticalOpens(r, next) == CriticalOpens(r, before)
           + (if pa.outcome == Verdict.Open && r.severity(pa.service, pa.metric) == "critical" then {pa.service}
             else {})
  {
    assert pending[..i + 1] == pending[..i] + [pending[i]];
  }

  lemma NothingOpen(r: Reads)
    ensures ResolvedKeys([]) == {} && OpenServices([]) == {} && CriticalOpens(r, []) == {}
    ensures CriticalIn(map[]) == {}
  {}

  method GatherOpens(r: Reads, snap: seq<Problem>, pending: seq<Pending>)
    returns (resolving: set<(string, string)>, anomalous: set<string>, severity: map<string, string>,
             opening: seq<Candidate>)
    ensures resolving == ResolvedKeys(pending) && anomalous == OpenServices(pending)
    ensures CriticalIn(severity) == CriticalOpens(r, pending)
    ensures opening == Collect(pending, FreshStep(r, snap))
  {
    resolving, anomalous, severity, opening := {}, {}, map[], [];
    hide *;
    NothingOpen(r);
    NothingCollected(FreshStep(r, snap));
    assert pending[..0] == [];
    for i := 0 to |pending|
      invariant resolving == ResolvedKeys(pending[..i]) && anomalous == OpenServices(pending[..i])
      invariant CriticalIn(severity) == CriticalOpens(r, pending[..i])
      invariant opening == Collect(pending[..i], FreshStep(r, snap))
    {
      var pa := pending[i];
      OpensNext(r, snap, pending, i);
      CollectStep(pending, i, FreshStep(r, snap));
      FreshStepIs(r, snap, pa);
      if pa.outcome == Verdict.Resolve {
        resolving := resolving + {(MetricRule(pa.service, pa.metric), pa.service)};
      }
      if pa.outcome != Verdict.Open {
        continue;
      }
      anomalous := anomalous + {pa.service};
      NoteSeverityIs(severity, pa.service, r.severity(pa.service, pa.metric));
      severity := NoteSeverity(severity, pa.service, r.severity(pa.service, pa.metric));
      if Existing(snap, pa.service, pa.metric).None? {
        opening := opening + [Candidate(pa.service, pa.metric, r.severity(pa.service, pa.metric), None)];
      }
    }
    assert pending[..|pending|] == pending;
  }

  lemma FreshStepIs(r: Reads, snap: seq<Problem>, pa: Pending)
    ensures FreshStep(r, snap)(pa)
         == if pa.outcome == Verdict.Open && Existing(snap, pa.service, pa.metric).None?
            then Some(Candidate(pa.service, pa.metric, r.severity(pa.service, pa.metric), None)) else None
  {}

  method RecentOpenCandidates(r: Reads, snap: seq<Problem>, resolving: set<(string, string)>)
    returns (joined: seq<Candidate>)
    ensures AreRecent(joined, r, snap, resolving)
  {
    var out: seq<Candidate> := [];
    assert snap[..0] == [];
    for i := 0 to |snap|
      invariant out == Collect(snap[..i], RecentStep(resolving, r.tracked, r.now))
    {
      var p := snap[i];
      CollectStep(snap, i, RecentStep(resolving, r.tracked, r.now));
      if p.id == "" || p.status != Open || p.service == "" || p.metric == "" {
        continue;
      }
      if p.metric !in r.tracked || p.external {
        continue;
      }
      if p.ruleId != MetricRule(p.service, p.metric) {
        continue;
      }
      if p.startedAt < r.now - JOIN_WINDOW || (p.ruleId, p.service) in resolving {
        continue;
      }
      out := out + [Candidate(p.service, p.metric, p.severity, Some(p))];
    }
    assert snap[..|snap|] == snap;
    MemberOrder();
    joined := SortSlice(out, MemberBefore);
  }

  // The joined rows count as anomalous services too.
  method CountJoined(joined: seq<Candidate>, anomalous0: set<string>, severity0: map<string, string>)
    returns (anomalous: set<string>, severity: map<string, string>)
    ensures anomalous == anomalous0 + Services(joined)
    ensures CriticalIn(severity) == CriticalIn(severity0) + CriticalJoined(joined)
  {
    anomalous, severity := anomalous0, severity0;
    hide NoteSeverity, CriticalIn;
    for i := 0 to |joined|
      invariant anomalous == anomalous0 + Services(joined[..i])
      invariant CriticalIn(severity) == CriticalIn(severity0) + CriticalJoined(joined[..i])
    {
      var c := joined[i];
      assert joined[..i + 1] == joined[..i] + [c];
      anomalous := anomalous + {c.service};
      NoteSeverityIs(severity, c.service, c.severity);
      severity := NoteSeverity(severity, c.service, c.severity);
    }
    assert joined[..|joined|] == joined;
  }

  // ----- the rows of a cluster -----

  method ClusterStartedAt(now: int, targets: seq<Problem>) returns (start: int)
    ensures IsClusterStart(start, now, targets)
  {
    start := now;
    for i := 0 to |targets|
      invariant start <= now
      invariant forall j :: 0 <= j < i && targets[j].startedAt > 0 ==> start <= targets[j].startedAt
      invariant start == now || exists j :: 0 <= j < i && targets[j].startedAt == start > 0
    {
      if targets[i].startedAt > 0 && targets[i].startedAt < start {
        start := targets[i].startedAt;
      }
    }
  }

  method ClusterSeverity(members: seq<Candidate>, sourceSeverity: string) returns (s: string)
    ensures s == if sourceSeverity == "critical" || exists m :: m in members && m.severity == "critical"
                 then "critical" else "warning"
  {
    if sourceSeverity == "critical" {
      return "critical";
    }
    for i := 0 to |members|
      invariant forall j :: 0 <= j < i ==> members[j].severity != "critical"
    {
      if members[i].severity == "critical" {
        return "critical";
      }
    }
    s := "warning";
  }

  method ClusterRow(r: Reads, snap: seq<Problem>, cl: Cluster, targets: seq<Problem>, sourceSeverity: string)
    returns (row: Problem)
    ensures IsClusterRow(row, cl, targets, sourceSeverity == "critical", r, snap)
  {
    var severity := ClusterSeverity(cl.members, sourceSeverity);
    var note := r.clusterText(cl, |targets|);
    hide ById;
    var existing := Named(ById(snap, ClusterId(cl.source)));
    if existing.Some? {
      row := existing.value.(note := note, severity := severity);
    } else {
      var start := ClusterStartedAt(r.now, targets);
      row := Problem(ClusterId(cl.source), ClusterId(cl.source), cl.source, "cluster", false, severity, Open,
                     start, note);
    }
  }

  // ----- the rows folded into a cluster -----

  // out lists the rows of some candidates, each identity once.
  ghost predicate ListsRowsOf(out: seq<Problem>, cands: seq<Candidate>) {
    && (forall i, j :: 0 <= i < j < |out| ==> out[i].id != out[j].id)
    && (forall t :: t in out ==> t.id != "" && exists c :: c in cands && c.existing == Some(t))
    && IdsOf(out) == RowIds(cands)
  }

  lemma AddTargetLists(out: seq<Problem>, cands: seq<Candidate>, c: Candidate)
    requires ListsRowsOf(out, cands)
    ensures ListsRowsOf(AddTarget(out, c.existing), cands + [c])
  {
    var out', cands' := AddTarget(out, c.existing), cands + [c];
    forall t | t in out' ensures t.id != "" && exists d :: d in cands' && d.existing == Some(t) {
      if t in out {
        var d :| d in cands && d.existing == Some(t);
        assert d in cands';
      } else {
        assert c in cands';
      }
    }
    assert RowIds(cands') == RowIds(cands) + RowIds([c]);
    assert IdsOf(out') == IdsOf(out) + RowIds([c]) by {
      assert c.existing.Some? && c.existing.value.id != "" ==> c.existing.value.id in RowIds([c]);
      assert out' != out ==> IdsOf(out') == IdsOf(out) + {c.existing.value.id};
    }
  }

  lemma SourceStep(source: string, cands: seq<Candidate>, i: nat)
    requires i < |cands|
    ensures SourceCandidates(source, cands[..i + 1])
         == SourceCandidates(source, cands[..i]) + if cands[i].service == source then [cands[i]] else []
  {
    assert cands[..i + 1][..i] == cands[..i];
  }

  lemma {:induction false} RowsListed(cands: seq<Candidate>)
    ensures ListsRowsOf(RowsOf(cands), cands)
  {
    if cands != [] {
      var init, last := cands[..|cands| - 1], cands[|cands| - 1];
      RowsListed(init);
      assert cands == init + [last];
      hide ListsRowsOf, AddTarget;
      AddTargetLists(RowsOf(init), init, last);
    }
  }

  // The rows to fold in are known by what they are.
  lemma TargetsAre(cl: Cluster, cands: seq<Candidate>)
    ensures AreTargets(TargetsOf(cl, cands), cl, cands)
  {
    var out := RowsOf(cl.members + SourceCandidates(cl.source, cands));
    RowsListed(cl.members + SourceCandidates(cl.source, cands));
    SortPermutes(out, IdBefore);
    IdOrder();
    SortSorted(out, IdBefore);
    hide RowsOf, ListsRowsOf, IdBefore, SourceCandidates, Sort;
    TargetsSorted(out, Sort(out, IdBefore), cl, cands);
  }

  lemma RowsNext(cands: seq<Candidate>, c: Candidate)
    ensures RowsOf(cands + [c]) == AddTarget(RowsOf(cands), c.existing)
  {
    assert (cands + [c])[..|cands|] == cands;
  }

  method MergeTargets(cl: Cluster, cands: seq<Candidate>) returns (targets: seq<Problem>)
    ensures targets == TargetsOf(cl, cands)
  {
    var out: seq<Problem> := [];
    hide AddTarget;
    for i := 0 to |cl.members|
      invariant out == RowsOf(cl.members[..i])
    {
      assert cl.members[..i + 1] == cl.members[..i] + [cl.members[i]];
      RowsNext(cl.members[..i], cl.members[i]);
      out := AddTarget(out, cl.members[i].existing);
    }
    assert cl.members[..|cl.members|] == cl.members;
    assert SourceCandidates(cl.source, cands[..0]) == [];
    hide RowsOf, SourceCandidates;
    ghost var asked := cl.members;
    assert asked + [] == asked;
    for i := 0 to |cands|
      invariant asked == cl.members + SourceCandidates(cl.source, cands[..i]) && out == RowsOf(asked)
    {
      SourceStep(cl.source, cands, i);
      if cands[i].service == cl.source {
        RowsNext(asked, cands[i]);
        out := AddTarget(out, cands[i].existing);
        asked := asked + [cands[i]];
      }
    }
    assert cands[..|cands|] == cands;
    IdOrder();
    targets := SortSlice(out, IdBefore);
    SortedTargets(out, targets, cl, cands);
  }

  lemma SortedTargets(out: seq<Problem>, targets: seq<Problem>, cl: Cluster, cands: seq<Candidate>)
    requires out == RowsOf(cl.members + SourceCandidates(cl.source, cands))
    requires multiset(targets) == multiset(out) && SortedBy(targets, IdBefore)
    ensures targets == TargetsOf(cl, cands)
  {
    RowsListed(cl.members + SourceCandidates(cl.source, cands));
    IdOrder();
    SortPermutes(out, IdBefore);
    SortSorted(out, IdBefore);
    RowsDistinct(out, cl.members + SourceCandidates(cl.source, cands));
    hide RowsOf, ListsRowsOf, IdBefore, SourceCandidates, Sort;
    DistinctPermutes(out, targets, IdBefore);
    SortedUnique(targets, Sort(out, IdBefore), IdBefore);
  }

  lemma RowsDistinct(out: seq<Problem>, cands: seq<Candidate>)
    requires ListsRowsOf(out, cands)
    ensures DistinctBy(out, IdBefore)
  {
    StringOrder();
  }

  lemma IdOrder()
    ensures WeakOrder(IdBefore)
  {
    StringOrder();
  }

  lemma TargetsSorted(out: seq<Problem>, targets: seq<Problem>, cl: Cluster, cands: seq<Candidate>)
    requires ListsRowsOf(out, cl.members + SourceCandidates(cl.source, cands))
    requires multiset(targets) == multiset(out) && SortedBy(targets, IdBefore)
    ensures AreTargets(targets, cl, cands)
  {
    IdsApart(out, targets);
    TargetsKnown(out, cl, cands);
    hide *;
    SameElements(targets, out);
    TargetsFormed(out, targets, cl, cands);
  }

  lemma TargetsFormed(out: seq<Problem>, targets: seq<Problem>, cl: Cluster, cands: seq<Candidate>)
    requires forall x :: x in targets <==> x in out
    requires forall i, j :: 0 <= i < j < |targets| ==> IdBefore(targets[i], targets[j])
    requires forall t :: t in out ==> IsTarget(t, cl, cands)
    requires IdsOf(out) == RowIds(cl.members) + RowIds(SourceCandidates(cl.source, cands))
    ensures AreTargets(targets, cl, cands)
  {
    hide IsTarget, IdBefore, RowIds, SourceCandidates;
    assert IdsOf(targets) == IdsOf(out);
  }

  lemma TargetsKnown(out: seq<Problem>, cl: Cluster, cands: seq<Candidate>)
    requires ListsRowsOf(out, cl.members + SourceCandidates(cl.source, cands))
    ensures forall t :: t in out ==> IsTarget(t, cl, cands)
    ensures IdsOf(out) == RowIds(cl.members) + RowIds(SourceCandidates(cl.source, cands))
  {
    var own := SourceCandidates(cl.source, cands);
    assert RowIds(cl.members + own) == RowIds(cl.members) + RowIds(own);
    forall t | t in out ensures IsTarget(t, cl, cands) {
      var c :| c in cl.members + own && c.existing == Some(t);
      if c in own {
        var d := CollectSource(cands, (c: Candidate) => if c.service == cl.source then Some(c) else None, c);
      }
    }
  }

  lemma IdsApart(out: seq<Problem>, targets: seq<Problem>)
    requires forall i, j :: 0 <= i < j < |out| ==> out[i].id != out[j].id
    requires multiset(targets) == multiset(out) && SortedBy(targets, IdBefore)
    ensures forall i, j :: 0 <= i < j < |targets| ==> IdBefore(targets[i], targets[j])
  {
    StringOrder();
    assert DistinctBy(out, IdBefore);
    DistinctPermutes(out, targets, IdBefore);
  }

  // ----- steps of the loop over the clusters -----

  ghost function Grouped(clusters: seq<Cluster>): set<string> {
    set i, s | 0 <= i < |clusters| && s in ClusterServices(clusters[i]) :: s
  }

  lemma GroupedNext(clusters: seq<Cluster>, k: nat)
    requires k < |clusters|
    ensures Grouped(clusters[..k + 1])
         == Grouped(clusters[..k]) + {clusters[k].source} + (set m | m in clusters[k].members :: m.service)
  {
    hide Services;
    var all, before, cl := Grouped(clusters[..k + 1]), Grouped(clusters[..k]), clusters[k];
    assert ClusterServices(cl) == {cl.source} + (set m | m in cl.members :: m.service) by { ServicesAre(cl.members); }
    forall s ensures s in all <==> s in before || s in ClusterServices(cl) {
      if s in all {
        var i :| 0 <= i < k + 1 && s in ClusterServices(clusters[..k + 1][i]);
        assert i < k ==> s in ClusterServices(clusters[..k][i]);
      }
      if s in before {
        var i :| 0 <= i < k && s in ClusterServices(clusters[..k][i]);
        assert s in ClusterServices(clusters[..k + 1][i]);
      }
      if s in ClusterServices(cl) {
        assert s in ClusterServices(clusters[..k + 1][k]);
      }
    }
  }

  lemma ServicesAre(members: seq<Candidate>)
    ensures Services(members) == set m | m in members :: m.service
  {}

  lemma SeverityKnown(severity: map<string, string>, s: string)
    ensures s in CriticalIn(severity) <==> (if s in severity then severity[s] else "") == "critical"
  {}

  lemma BlockDone(
    block: seq<Attempt>, cl: Cluster, joined: seq<Candidate>, cands: seq<Candidate>, r: Reads, snap: seq<Problem>,
    critical: bool)
    requires cands == FreshOpens(r, snap) + joined && critical == IsCritical(cl.source, r, snap, joined)
    requires IsBlock(block, cl, TargetsOf(cl, cands), critical, r, snap)
    ensures HasBlock(block, cl, joined, r, snap)
  {}

  lemma BlockFormed(first: Attempt, run: seq<Attempt>, cl: Cluster, targets: seq<Problem>,
                    critical: bool, r: Reads, snap: seq<Problem>)
    requires first.write.step == ClusterWrite
    requires IsClusterRow(first.write.row, cl, targets, critical, r, snap)
    requires if first.ok then |run| == |targets| else run == []
    requires forall i :: 0 <= i < |run| ==> run[i].write == MergeWrite(cl.source, targets[i])
    ensures IsBlock([first] + run, cl, targets, critical, r, snap)
  {
    hide IsClusterRow, MergeWrite;
  }

  lemma NothingMerged()
    ensures MergedIds([]) == {}
  {}

  lemma MergedNext(run: seq<Attempt>, source: string, t: Problem, ok: bool)
    ensures MergedIds(run + [Attempt(MergeWrite(source, t), ok)]) == MergedIds(run) + if ok then {t.id} else {}
  {}

  lemma MergedConcat(a: seq<Attempt>, b: seq<Attempt>)
    ensures MergedIds(a + b) == MergedIds(a) + MergedIds(b)
  {}

  lemma FirstIsNoMerge(a: Attempt)
    requires a.write.step == ClusterWrite
    ensures MergedIds([a]) == {}
  {}

  lemma NoBlocks()
    ensures Flatten([]) == [] && Grouped([]) == {}
    ensures forall joined, r, snap :: HaveBlocks([], [], joined, r, snap)
  {}

  lemma MoreBlocks(
    blocks: seq<seq<Attempt>>, block: seq<Attempt>, clusters: seq<Cluster>, k: nat, joined: seq<Candidate>,
    r: Reads, snap: seq<Problem>)
    requires k < |clusters| && HaveBlocks(blocks, clusters[..k], joined, r, snap)
    requires HasBlock(block, clusters[k], joined, r, snap)
    ensures HaveBlocks(blocks + [block], clusters[..k + 1], joined, r, snap)
  {
    hide HasBlock;
    assert (blocks + [block])[..|blocks|] == blocks && clusters[..k + 1][..k] == clusters[..k];
  }

  lemma FlattenNext(blocks: seq<seq<Attempt>>, block: seq<Attempt>)
    ensures Flatten(blocks + [block]) == Flatten(blocks) + block
  {
    assert (blocks + [block])[..|blocks|] == blocks;
  }

  // ----- detected clusters fit -----

  lemma MembersAreCandidates(cl: Cluster, cands: seq<Candidate>, rank: string -> seq<Scored>, min: int)
    requires GoodCluster(cl, cands, rank, min)
    ensures cl.source in Services(cands) && Elements(cl.members) <= Elements(cands)
  {
    SameElements(cl.members, Carried(cands, Services(cl.members)));
    forall m | m in cl.members ensures m in cands {
      CarriedServices(cands, Services(cl.members), m);
    }
  }

  lemma ClustersAlwaysFit(clusters: seq<Cluster>, cands: seq<Candidate>, r: Reads)
    requires AreClusters(clusters, cands, r)
    ensures ClustersFit(clusters, cands)
  {
    if r.adjacency.Some? {
      var rank := r.adjacency.value;
      hide IsClustering;
      ClustersAreAPacking(cands, rank, MIN_MEMBERS, clusters);
      hide *;
      forall k | 0 <= k < |clusters|
        ensures clusters[k].source in Services(cands) && Elements(clusters[k].members) <= Elements(cands)
      {
        MembersAreCandidates(clusters[k], cands, rank, MIN_MEMBERS);
      }
      FitFormed(clusters, cands);
    }
  }

  lemma {:induction false} FitFormed(clusters: seq<Cluster>, cands: seq<Candidate>)
    requires forall k :: 0 <= k < |clusters| ==>
      clusters[k].source in Services(cands) && Elements(clusters[k].members) <= Elements(cands)
    requires forall i, j :: 0 <= i < j < |clusters| ==> ClusterServices(clusters[i]) !! ClusterServices(clusters[j])
    ensures ClustersFit(clusters, cands)
  {
    hide ClusterServices, Services, Elements;
    if clusters != [] {
      FitFormed(clusters[..|clusters| - 1], cands);
    }
  }

  // ----- the phases put together -----

  lemma ResolvingIs(r: Reads, snap: seq<Problem>)
    ensures Resolving(r, snap)
         == ResolvedKeys(AllPending(r, snap)) + set w | w in BatchWrites(r, snap) :: (w.row.ruleId, w.row.service)
    ensures FreshOpens(r, snap) == Collect(AllPending(r, snap), FreshStep(r, snap))
  {}

  lemma AnomalousIs(r: Reads, snap: seq<Problem>, joined: seq<Candidate>, severity: map<string, string>)
    requires CriticalIn(severity) == CriticalOpens(r, AllPending(r, snap)) + CriticalJoined(joined)
    ensures Anomalous(r, snap, joined) == OpenServices(AllPending(r, snap)) + Services(joined)
    ensures forall s :: s in CriticalIn(severity) <==> IsCritical(s, r, snap, joined)
  {}

  lemma NoClusters(cands: seq<Candidate>, r: Reads)
    ensures r.adjacency.None? || |cands| < MIN_MEMBERS ==> AreClusters([], cands, r)
  {}

  lemma ClustersAre(clusters: seq<Cluster>, cands: seq<Candidate>, r: Reads)
    requires r.adjacency.Some? && IsClustering(cands, r.adjacency.value, MIN_MEMBERS, clusters)
    ensures AreClusters(clusters, cands, r)
  {}

  lemma TickFormed(r: Reads, snap: seq<Problem>, t: Run)
    requires AreRecent(t.joined, r, snap, Resolving(r, snap)) && ClustersFit(t.clusters, FreshOpens(r, snap) + t.joined)
    requires Writes(t.batch) == BatchWrites(r, snap) && HaveBlocks(t.blocks, t.clusters, t.joined, r, snap)
    requires Writes(t.stale) == Collect(snap, StaleStep(Anomalous(r, snap, t.joined)))
    requires Writes(t.applied)
             == Collect(AllPending(r, snap), ApplyStep(r, snap, Grouped(t.clusters), MergedIds(Flatten(t.blocks))))
    ensures IsTick(r, snap, t) && t.Cands(r, snap) == FreshOpens(r, snap) + t.joined
  {
    hide AreRecent, ClustersFit, HaveBlocks, Writes, Collect, BatchWrites, Grouped, MergedIds, Flatten, Anomalous;
    hide AllPending, FreshOpens, Resolving;
  }

  lemma AllWrites(t: Run)
    ensures t.All() == t.batch + Flatten(t.blocks) + t.stale + t.applied
  {
    hide Flatten;
  }

  // A verdict to resolve always finds its row.
  lemma ResolvesExisting(r: Reads, snap: seq<Problem>)
    requires ResolvesOnlyOpen(r)
    ensures forall pa :: pa in AllPending(r, snap) && pa.outcome == Verdict.Resolve ==>
              Existing(snap, pa.service, pa.metric).Some?
  {
    forall pa | pa in AllPending(r, snap) && pa.outcome == Verdict.Resolve
      ensures Existing(snap, pa.service, pa.metric).Some?
    {
      var pair := CollectSource(Pairs(r.services, r.tracked), PendingStep(r, snap), pa);
      PendingIs(r, snap, pair, pa);
      hide Existing;
      assert pa.outcome == VerdictOn(r, snap, pa.service, pa.metric);
    }
  }

  lemma PendingIs(r: Reads, snap: seq<Problem>, pair: (string, string), pa: Pending)
    requires PendingStep(r, snap)(pair) == Some(pa)
    ensures pair == (pa.service, pa.metric)
    ensures pa.outcome == Verdict.None ==> Existing(snap, pa.service, pa.metric).Some?
    ensures pa.outcome != Verdict.Skip && !BatchLoadSkipped(r, pa.service, pa.metric)
    ensures pa.outcome != Verdict.None ==> pa.outcome == VerdictOn(r, snap, pa.service, pa.metric)
  {
    hide Existing;
  }
}
