/** The reconciler of internal/api/handler.go. */
module Handlers {
  import opened Model
  import opened Text
  import opened StoreSpec
  import opened Stores
  import opened Inference
  import opened ReconcileSpec

  // ----- Events of a reconciliation -----

  /** An event that reports no change of status, membership or lineage. */
  predicate IsRefresh(kind: EventKind) {
    kind.SessionUpserted? || kind.WorkspaceUpserted? || kind.EdgeUpserted?
  }

  /** Between two histories only refresh events were appended. */
  ghost predicate Quiet(before: seq<Event>, after: seq<Event>) {
    before <= after && forall i :: |before| <= i < |after| ==> IsRefresh(after[i].kind)
  }

  lemma QuietTransitive(a: seq<Event>, b: seq<Event>, c: seq<Event>)
    requires Quiet(a, b) && Quiet(b, c)
    ensures Quiet(a, c)
  {
  }

  /** The store already knows this process: its session, working, and its workspace. */
  ghost predicate Known(sessions: map<string, Session>, workspaces: map<string, Workspace>, p: Process, scan: Scan)
    requires Inferrable(p, scan.env)
  {
    var s := Found(p, scan.env, scan.now);
    && s.id in sessions && sessions[s.id].status == STATUS_WORKING
    && (s.cwd == "" || "workspace:" + s.cwd in workspaces)
  }

  // ----- Phase 1 -----

  /** The current sessions answer the reconciler's questions about `id` as `base` does. */
  ghost predicate AgreesOn(current: map<string, Session>, base: map<string, Session>, id: string, now: Instant) {
    && NativelyOwned(current, id) == NativelyOwned(base, id)
    && (!NativelyOwned(base, id) ==> StartOf(current, id, now) == StartOf(base, id, now))
  }

  lemma OverlayAgrees(base: map<string, Session>, ps: seq<Process>, env: Env, now: Instant, id: string)
    requires AllInferrable(ps, env) && forall p :: p in ps ==> !NativelyOwned(base, IdOf(p, env))
    ensures AgreesOn(base + Records(base, ps, env, now), base, id, now)
  {
    RecordsKeys(base, ps, env, now, id);
    if id in Records(base, ps, env, now) { RecordsFresh(base, ps, env, now, id); }
  }

  /** What UpsertSession stores for a found process is its record. */
  lemma NormalizedFound(p: Process, env: Env, now: Instant, started: Time, clock: Instant)
    requires Sound(env) && Inferrable(p, env) && started != ZERO_TIME
    ensures var s := Found(p, env, now).(startedAt := started);
            s.id == IdOf(p, env) != "" && NormalizeSession(s, clock) == s.(attention := ATTENTION_NONE)
  {
    AgentShape(SourceOf(p, env));
    WorkingNeedsNoAttention();
  }

  lemma WorkingNeedsNoAttention()
    ensures DeriveAttention(STATUS_WORKING) == ATTENTION_NONE
  {
    assert STATUS_WORKING[0] != STATUS_BLOCKED[0];
  }

  ghost predicate AllKnown(st: Snapshot, ps: seq<Process>, scan: Scan)
    requires AllInferrable(ps, scan.env)
  {
    forall p :: p in ps ==> Known(st.sessions, st.workspaces, p, scan)
  }

  ghost predicate ObservedMaps(pre: Snapshot, st: Snapshot, scan: Scan, ps: seq<Process>)
    requires AllInferrable(ps, scan.env)
  {
    && st.sessions == pre.sessions + Records(pre.sessions, ps, scan.env, scan.now)
    && st.workspaces == pre.workspaces + Places(ps, scan.env, scan.now)
    && st.edges == pre.edges
  }

  /** The store after the processes `ps` were observed, starting from `pre`. */
  ghost predicate Observed(pre: Snapshot, st: Snapshot, scan: Scan, ps: seq<Process>) {
    && AllInferrable(ps, scan.env)
    && ObservedMaps(pre, st, scan, ps)
    && (AllKnown(pre, ps, scan) ==> Quiet(pre.history, st.history))
  }

  /** The store after one more process was claimed. */
  ghost predicate ObservedOne(pre: Snapshot, mid: Snapshot, st: Snapshot, scan: Scan, p: Process)
    requires Inferrable(p, scan.env)
  {
    && st.sessions == mid.sessions[IdOf(p, scan.env) := Record(pre.sessions, p, scan.env, scan.now)]
    && st.workspaces == PlaceOne(mid.workspaces, p, scan.env, scan.now)
    && st.edges == mid.edges
    && (Known(mid.sessions, mid.workspaces, p, scan) ==> Quiet(mid.history, st.history))
  }

  /** Observing keeps what was known, known. */
  lemma KnownPersists(pre: Snapshot, mid: Snapshot, scan: Scan, ps: seq<Process>, p: Process)
    requires Observed(pre, mid, scan, ps) && Inferrable(p, scan.env)
    requires Known(pre.sessions, pre.workspaces, p, scan)
    ensures Known(mid.sessions, mid.workspaces, p, scan)
  {
    RecordsShape(pre.sessions, ps, scan.env, scan.now);
  }

  lemma ObservedMapsSnoc(pre: Snapshot, mid: Snapshot, st: Snapshot, scan: Scan, ps: seq<Process>, p: Process)
    requires AllInferrable(ps, scan.env) && Inferrable(p, scan.env)
    requires ObservedMaps(pre, mid, scan, ps) && ObservedOne(pre, mid, st, scan, p)
    ensures AllInferrable(ps + [p], scan.env) && ObservedMaps(pre, st, scan, ps + [p])
  {
    RecordsSnoc(pre.sessions, ps, p, scan.env, scan.now);
    OverlayUpdate(pre.sessions, Records(pre.sessions, ps, scan.env, scan.now), IdOf(p, scan.env),
      Record(pre.sessions, p, scan.env, scan.now));
    PlacesSnoc(ps, p, scan.env, scan.now);
    var s := Found(p, scan.env, scan.now);
    OverlayUpdate(pre.workspaces, Places(ps, scan.env, scan.now), "workspace:" + s.cwd, WorkspaceFor(s, scan.now));
  }

  lemma OverlayUpdate<K, V>(a: map<K, V>, m: map<K, V>, k: K, v: V)
    ensures (a + m)[k := v] == a + m[k := v]
  {
  }

  /** The reconciler's two tables after claiming `ps`. */
  ghost predicate Tables(base: map<string, Session>, scan: Scan, ps: seq<Process>, seen: set<string>,
                         pids: map<int, string>)
    requires AllInferrable(ps, scan.env)
  {
    pids == PidMap(ps, scan.env) && seen == Records(base, ps, scan.env, scan.now).Keys
  }

  lemma TablesSnoc(base: map<string, Session>, scan: Scan, ps: seq<Process>, seen: set<string>,
                   pids: map<int, string>, p: Process)
    requires AllInferrable(ps, scan.env) && Tables(base, scan, ps, seen, pids) && Inferrable(p, scan.env)
    ensures AllInferrable(ps + [p], scan.env)
    ensures Tables(base, scan, ps + [p], seen + {IdOf(p, scan.env)}, pids[p.pid := IdOf(p, scan.env)])
  {
    RecordsSnoc(base, ps, p, scan.env, scan.now);
    PidMapSnoc(ps, p, scan.env);
  }

  lemma AllKnownSnoc(st: Snapshot, ps: seq<Process>, p: Process, scan: Scan)
    requires AllInferrable(ps, scan.env) && AllInferrable(ps + [p], scan.env) && Inferrable(p, scan.env)
    ensures AllKnown(st, ps + [p], scan) <==> AllKnown(st, ps, scan) && Known(st.sessions, st.workspaces, p, scan)
  {
    assert forall q :: q in ps + [p] <==> q in ps || q == p;
  }

  lemma ObservedSnoc(pre: Snapshot, mid: Snapshot, st: Snapshot, scan: Scan, ps: seq<Process>, p: Process)
    requires Observed(pre, mid, scan, ps) && Inferrable(p, scan.env) && ObservedOne(pre, mid, st, scan, p)
    ensures Observed(pre, st, scan, ps + [p])
  {
    ObservedMapsSnoc(pre, mid, st, scan, ps, p);
    AllKnownSnoc(pre, ps, p, scan);
    if AllKnown(pre, ps + [p], scan) {
      KnownPersists(pre, mid, scan, ps, p);
      QuietTransitive(pre.history, mid.history, st.history);
    }
  }

  /** Where the first loop stands after `n` processes. */
  ghost predicate Progress(pre: Snapshot, st: Snapshot, scan: Scan, n: nat, ps: seq<Process>, seen: set<string>,
                           pids: map<int, string>) {
    && n <= |scan.processes|
    && ps == Claim(pre.sessions, scan.processes[..n], scan.env)
    && Observed(pre, st, scan, ps)
    && Tables(pre.sessions, scan, ps, seen, pids)
  }

  lemma ProgressAgrees(pre: Snapshot, st: Snapshot, scan: Scan, n: nat, ps: seq<Process>, seen: set<string>,
                       pids: map<int, string>, id: string)
    requires Progress(pre, st, scan, n, ps, seen, pids)
    ensures AgreesOn(st.sessions, pre.sessions, id, scan.now)
  {
    OverlayAgrees(pre.sessions, ps, scan.env, scan.now, id);
  }

  lemma ClaimNext(base: map<string, Session>, scan: Scan, n: nat)
    requires n < |scan.processes|
    ensures Claim(base, scan.processes[..n + 1], scan.env) == Claim(base, scan.processes[..n], scan.env)
              + (if Claims(base, scan.processes[n], scan.env) then [Resolve(scan.processes[n], scan.env)] else [])
  {
    ClaimSnoc(base, scan.processes[..n], scan.processes[n], scan.env);
    assert scan.processes[..n + 1] == scan.processes[..n] + [scan.processes[n]];
  }

  lemma ProgressSkips(pre: Snapshot, st: Snapshot, scan: Scan, n: nat, ps: seq<Process>, seen: set<string>,
                      pids: map<int, string>)
    requires n < |scan.processes| && Progress(pre, st, scan, n, ps, seen, pids)
    requires !Claims(pre.sessions, scan.processes[n], scan.env)
    ensures Progress(pre, st, scan, n + 1, ps, seen, pids)
  {
    ClaimNext(pre.sessions, scan, n);
  }

  lemma ProgressClaims(pre: Snapshot, mid: Snapshot, st: Snapshot, scan: Scan, n: nat,
                       ps: seq<Process>, seen: set<string>, pids: map<int, string>, p: Process)
    requires n < |scan.processes| && Progress(pre, mid, scan, n, ps, seen, pids)
    requires Claims(pre.sessions, scan.processes[n], scan.env) && p == Resolve(scan.processes[n], scan.env)
    requires Inferrable(p, scan.env) && ObservedOne(pre, mid, st, scan, p)
    ensures Progress(pre, st, scan, n + 1, ps + [p], seen + {IdOf(p, scan.env)}, pids[p.pid := IdOf(p, scan.env)])
  {
    ClaimNext(pre.sessions, scan, n);
    ObservedSnoc(pre, mid, st, scan, ps, p);
    TablesSnoc(pre.sessions, scan, ps, seen, pids, p);
  }

  // ----- Phase 2 -----

  /** The pid table names inferred sessions of the store. */
  ghost predicate PidsLive(pids: map<int, string>, sessions: map<string, Session>) {
    forall pid :: pid in pids ==> pids[pid] != "" && pids[pid] in sessions && IsInferred(sessions[pids[pid]])
  }

  /** The store after the links and edges of `p`. */
  ghost predicate LinkedOne(mid: Snapshot, st: Snapshot, p: Process, pids: map<int, string>, now: Instant) {
    && st.sessions == LinkOne(mid.sessions, p, pids)
    && st.workspaces == mid.workspaces
    && st.edges == SpawnOne(mid.edges, p, pids, now)
    && ((HasParent(p, pids) ==> EdgeId(pids[p.pid], pids[p.ppid]) in mid.edges) ==> Quiet(mid.history, st.history))
  }

  /** Where the second loop stands after `n` of `all`. */
  ghost predicate LinkProgress(pre: Snapshot, st: Snapshot, all: seq<Process>, n: nat, pids: map<int, string>,
                               now: Instant, seenEdges: set<string>)
    requires n <= |all|
  {
    var ps := all[..n];
    && PidsLive(pids, st.sessions)
    && st.sessions == Link(pre.sessions, ps, pids)
    && st.workspaces == pre.workspaces
    && st.edges == pre.edges + Spawns(ps, pids, now)
    && seenEdges == Spawns(ps, pids, now).Keys
    && (Spawns(ps, pids, now).Keys <= pre.edges.Keys ==> Quiet(pre.history, st.history))
  }

  function EdgeSeen(p: Process, pids: map<int, string>): set<string> {
    if HasParent(p, pids) then {EdgeId(pids[p.pid], pids[p.ppid])} else {}
  }

  lemma LinkOneKeepsLive(sessions: map<string, Session>, p: Process, pids: map<int, string>)
    requires PidsLive(pids, sessions)
    ensures PidsLive(pids, LinkOne(sessions, p, pids))
  {
  }

  lemma SpawnOneOverlay(base: map<string, Edge>, m: map<string, Edge>, p: Process, pids: map<int, string>, now: Instant)
    ensures SpawnOne(base + m, p, pids, now) == base + SpawnOne(m, p, pids, now)
    ensures SpawnOne(m, p, pids, now).Keys == m.Keys + EdgeSeen(p, pids)
  {
    if HasParent(p, pids) {
      var id := EdgeId(pids[p.pid], pids[p.ppid]);
      OverlayUpdate(base, m, id, SpawnEdge(pids[p.pid], pids[p.ppid], now));
    }
  }

  lemma LinkProgressStep(pre: Snapshot, mid: Snapshot, st: Snapshot, all: seq<Process>, n: nat,
                         pids: map<int, string>, now: Instant, seenEdges: set<string>)
    requires n < |all| && LinkProgress(pre, mid, all, n, pids, now, seenEdges) && LinkedOne(mid, st, all[n], pids, now)
    ensures LinkProgress(pre, st, all, n + 1, pids, now, seenEdges + EdgeSeen(all[n], pids))
  {
    var ps, p := all[..n], all[n];
    assert all[..n + 1] == ps + [p];
    LinkSnoc(pre.sessions, ps, p, pids);
    SpawnsSnoc(ps, p, pids, now);
    LinkOneKeepsLive(mid.sessions, p, pids);
    var spawns := Spawns(ps, pids, now);
    SpawnOneOverlay(pre.edges, spawns, p, pids, now);
    if Spawns(ps + [p], pids, now).Keys <= pre.edges.Keys {
      assert spawns.Keys <= pre.edges.Keys;
      assert HasParent(p, pids) ==> EdgeId(pids[p.pid], pids[p.ppid]) in EdgeSeen(p, pids);
      QuietTransitive(pre.history, mid.history, st.history);
    }
  }

  // ----- Phases 3 and 4 -----

  const EVERYTHING := SessionFilter(true, [], "", "")

  function StaleSessions(xs: seq<Session>, seen: set<string>): set<string> {
    set s | s in xs && IsInferred(s) && s.id !in seen :: s.id
  }

  function KeptSessions(sessions: map<string, Session>, seen: set<string>): map<string, Session> {
    map id | id in sessions && (IsInferred(sessions[id]) ==> id in seen) :: sessions[id]
  }

  lemma SweepKeeps(st: Snapshot, xs: seq<Session>, seen: set<string>)
    requires Keyed(st) && ListsSessions(xs, st.sessions, st.sessions.Keys, EVERYTHING)
    ensures st.sessions - StaleSessions(xs, seen) == KeptSessions(st.sessions, seen)
    ensures KeptSessions(st.sessions, seen) == st.sessions ==> StaleSessions(xs, seen) == {}
  {
    forall s: Session ensures s in xs <==> s.id in st.sessions && st.sessions[s.id] == s {
      assert s in xs <==> multiset(xs)[s] > 0;
    }
    forall id | id in st.sessions
      ensures id in StaleSessions(xs, seen) <==> IsInferred(st.sessions[id]) && id !in seen
    {
      assert st.sessions[id] in xs;
    }
    forall id | id in StaleSessions(xs, seen) ensures id in st.sessions && id !in KeptSessions(st.sessions, seen) {
    }
  }

  function StaleEdges(xs: seq<Edge>, seen: set<string>): set<string> {
    set e | e in xs && HasPrefix(e.id, EDGE_PREFIX) && e.id !in seen :: e.id
  }

  function KeptEdges(edges: map<string, Edge>, seen: set<string>): map<string, Edge> {
    map id | id in edges && (HasPrefix(id, EDGE_PREFIX) ==> id in seen) :: edges[id]
  }

  lemma SweepKeepsEdges(st: Snapshot, xs: seq<Edge>, seen: set<string>)
    requires Keyed(st) && ListsEdges(xs, st.edges, st.edges.Keys, e => true)
    ensures st.edges - StaleEdges(xs, seen) == KeptEdges(st.edges, seen)
    ensures KeptEdges(st.edges, seen) == st.edges ==> StaleEdges(xs, seen) == {}
  {
    forall e: Edge ensures e in xs <==> e.id in st.edges && st.edges[e.id] == e {
      assert e in xs <==> multiset(xs)[e] > 0;
    }
    forall id | id in st.edges
      ensures id in StaleEdges(xs, seen) <==> HasPrefix(id, EDGE_PREFIX) && id !in seen
    {
      assert st.edges[id] in xs;
    }
    forall id | id in StaleEdges(xs, seen) ensures id in st.edges && id !in KeptEdges(st.edges, seen) {
    }
  }

  /** Where the third loop stands after `n` of `xs`. */
  ghost predicate SweepProgress(pre: Snapshot, st: Snapshot, xs: seq<Session>, n: nat, seen: set<string>)
    requires n <= |xs|
  {
    && st.sessions == pre.sessions - StaleSessions(xs[..n], seen)
    && st.edges == pre.edges && st.workspaces == pre.workspaces
    && (StaleSessions(xs[..n], seen) == {} ==> st.history == pre.history)
  }

  lemma SweepStep(pre: Snapshot, mid: Snapshot, st: Snapshot, xs: seq<Session>, n: nat, seen: set<string>)
    requires n < |xs| && SweepProgress(pre, mid, xs, n, seen)
    requires st == if IsInferred(xs[n]) && xs[n].id !in seen then Apply(mid, DropSession(xs[n].id)) else mid
    ensures SweepProgress(pre, st, xs, n + 1, seen)
  {
    assert xs[..n + 1] == xs[..n] + [xs[n]];
    assert StaleSessions(xs[..n + 1], seen)
        == StaleSessions(xs[..n], seen) + (if IsInferred(xs[n]) && xs[n].id !in seen then {xs[n].id} else {});
  }

  /** Where the fourth loop stands after `n` of `xs`. */
  ghost predicate EdgeSweepProgress(pre: Snapshot, st: Snapshot, xs: seq<Edge>, n: nat, seen: set<string>)
    requires n <= |xs|
  {
    && st.edges == pre.edges - StaleEdges(xs[..n], seen)
    && st.sessions == pre.sessions && st.workspaces == pre.workspaces
    && (StaleEdges(xs[..n], seen) == {} ==> st.history == pre.history)
  }

  lemma EdgeSweepStep(pre: Snapshot, mid: Snapshot, st: Snapshot, xs: seq<Edge>, n: nat, seen: set<string>)
    requires n < |xs| && EdgeSweepProgress(pre, mid, xs, n, seen)
    requires st == if HasPrefix(xs[n].id, EDGE_PREFIX) && xs[n].id !in seen then Apply(mid, DropEdge(xs[n].id)) else mid
    ensures EdgeSweepProgress(pre, st, xs, n + 1, seen)
  {
    assert xs[..n + 1] == xs[..n] + [xs[n]];
    assert StaleEdges(xs[..n + 1], seen)
        == StaleEdges(xs[..n], seen) +
           (if HasPrefix(xs[n].id, EDGE_PREFIX) && xs[n].id !in seen then {xs[n].id} else {});
  }

  // ----- The four phases together -----

  /** A store that already shows what the scan shows. */
  ghost predicate Settled(st: Snapshot, scan: Scan) {
    && AllKnown(st, Claimed(st.sessions, scan), scan)
    && Spawned(st.sessions, scan).Keys <= st.edges.Keys
    && (forall id :: id in st.sessions && IsInferred(st.sessions[id]) ==> id in Linked(st.sessions, scan))
    && (forall id :: id in st.edges && HasPrefix(id, EDGE_PREFIX) ==> id in Spawned(st.sessions, scan))
  }

  lemma PidsLiveAfterObserving(pre: Snapshot, st: Snapshot, scan: Scan, ps: seq<Process>, seen: set<string>,
                               pids: map<int, string>)
    requires Sound(scan.env) && Progress(pre, st, scan, |scan.processes|, ps, seen, pids)
    ensures PidsLive(pids, st.sessions)
  {
    PidMapShape(ps, scan.env);
    RecordsShape(pre.sessions, ps, scan.env, scan.now);
    forall pid | pid in pids
      ensures pids[pid] != "" && pids[pid] in st.sessions && IsInferred(st.sessions[pids[pid]])
    {
      var p :| p in ps && p.pid == pid && IdOf(p, scan.env) == pids[pid];
      SessionIdShape(SourceOf(p, scan.env), p.pid);
      assert Names(ps, scan.env, pids[pid]);
    }
  }

  /** Phases 1 and 2 lay the target over what was there. */
  lemma AfterLinking(pre: Snapshot, mid: Snapshot, st: Snapshot, scan: Scan,
                     ps: seq<Process>, seen: set<string>, pids: map<int, string>, seenEdges: set<string>)
    requires Progress(pre, mid, scan, |scan.processes|, ps, seen, pids)
    requires LinkProgress(mid, st, ps, |ps|, pids, scan.now, seenEdges)
    ensures st.sessions == pre.sessions + Linked(pre.sessions, scan)
    ensures seen == Linked(pre.sessions, scan).Keys
    ensures st.edges == pre.edges + Spawned(pre.sessions, scan)
    ensures seenEdges == Spawned(pre.sessions, scan).Keys
    ensures st.workspaces == SettleWorkspaces(pre.sessions, pre.workspaces, scan)
    ensures Settled(pre, scan) ==> Quiet(pre.history, st.history)
  {
    assert scan.processes[..|scan.processes|] == scan.processes;
    assert ps == Claimed(pre.sessions, scan);
    assert ps[..|ps|] == ps;
    PidsWithin(pre.sessions, ps, scan.env, scan.now);
    LinkFrame(pre.sessions, Records(pre.sessions, ps, scan.env, scan.now), ps, pids);
    if Settled(pre, scan) { QuietTransitive(pre.history, mid.history, st.history); }
  }

  lemma SweptIsSettled(pre: Snapshot, scan: Scan)
    ensures KeptSessions(pre.sessions + Linked(pre.sessions, scan), Linked(pre.sessions, scan).Keys)
            == SettleSessions(pre.sessions, scan)
    ensures KeptEdges(pre.edges + Spawned(pre.sessions, scan), Spawned(pre.sessions, scan).Keys)
            == SettleEdges(pre.sessions, pre.edges, scan)
  {
    OverlayKept(pre.sessions, Linked(pre.sessions, scan));
    OverlayKeptEdges(pre.edges, Spawned(pre.sessions, scan));
  }

  lemma OverlayKept(base: map<string, Session>, m: map<string, Session>)
    ensures KeptSessions(base + m, m.Keys) == Natives(base) + m
  {
  }

  lemma OverlayKeptEdges(base: map<string, Edge>, m: map<string, Edge>)
    ensures KeptEdges(base + m, m.Keys) == Foreign(base) + m
  {
  }

  lemma NothingStale(pre: Snapshot, scan: Scan)
    requires Settled(pre, scan)
    ensures var all := pre.sessions + Linked(pre.sessions, scan);
            KeptSessions(all, Linked(pre.sessions, scan).Keys) == all
    ensures var all := pre.edges + Spawned(pre.sessions, scan); KeptEdges(all, Spawned(pre.sessions, scan).Keys) == all
  {
  }

  class Handler {
    const store: Store

    constructor (store: Store)
      ensures this.store == store
    {
      this.store := store;
    }

    /** Infer the session and look up a missing working directory. */
    static method Identify(proc: Process, env: Env, now: Instant) returns (session: Session, found: Process)
      requires Inferrable(proc, env)
      ensures session == Found(proc, env, now) && found == Resolve(proc, env)
    {
      session, found := SessionFor(proc, SourceOf(proc, env), now), proc;
      if session.cwd == "" && env.cwdOf(proc.pid).Some? {
        var cwd := env.cwdOf(proc.pid).value;
        found := proc.(cwd := cwd);
        session := session.(cwd := cwd, workspaceRoots := [cwd], workspaceIds := ["workspace:" + cwd]);
      }
    }

    /** Upsert an inferred session and the workspace it runs in. */
    method PutInferred(session: Session, now: Instant, clock: Instant)
      requires store.Valid() && session.id != "" && session.source != ""
      modifies store
      ensures store.Valid() && store.edges == old(store.edges)
      ensures store.sessions == old(store.sessions)[session.id := NormalizeSession(session, clock)]
      ensures store.workspaces == if session.cwd == "" then old(store.workspaces)
                                  else old(store.workspaces)["workspace:" + session.cwd := WorkspaceFor(session, now)]
      ensures session.id in old(store.sessions) && old(store.sessions)[session.id].status == session.status != ""
              && (session.cwd == "" || "workspace:" + session.cwd in old(store.workspaces))
              ==> Quiet(old(store.history), store.history)
    {
      var _ := store.UpsertSession(session, clock);
      if session.cwd != "" {
        var _ := store.UpsertWorkspace(
          Workspace("workspace:" + session.cwd, "workspace", session.cwd, [session.id], session.source,
            CONFIDENCE_LOW, now),
          clock);
      }
    }

    /** The body of the first loop for one process. */
    method ObserveOne(proc: Process, scan: Scan, clock: Instant, ghost pre: Snapshot)
      returns (claimed: bool, found: Process, id: string)
      requires store.Valid() && Sound(scan.env)
      requires Keyed(pre)
      requires Inferrable(proc, scan.env) ==> AgreesOn(store.sessions, pre.sessions, IdOf(proc, scan.env), scan.now)
      modifies store
      ensures store.Valid()
      ensures claimed == Claims(pre.sessions, proc, scan.env)
      ensures !claimed ==> store.State() == old(store.State())
      ensures claimed ==>
        && found == Resolve(proc, scan.env) && Inferrable(found, scan.env) && id == IdOf(found, scan.env)
        && ObservedOne(pre, old(store.State()), store.State(), scan, found)
    {
      claimed, found, id := false, proc, "";
      if !Inferrable(proc, scan.env) {
        return;
      }
      var session;
      session, found := Identify(proc, scan.env, scan.now);
      FoundResolved(proc, scan.env, scan.now);
      id := session.id;
      var existing := store.GetSession(session.id);
      if existing.Some? {
        if !IsInferred(existing.value) {
          return;
        }
        session := session.(startedAt := existing.value.startedAt);
      }
      claimed := true;
      NormalizedFound(found, scan.env, scan.now, session.startedAt, clock);
      AgentShape(SourceOf(proc, scan.env));
      PutInferred(session, scan.now, clock);
    }

    /** The first loop: claim processes and upsert their sessions and workspaces. */
    method ObserveProcesses(scan: Scan, clock: Instant)
      returns (seen: set<string>, pids: map<int, string>, inferred: seq<Process>)
      requires store.Valid() && Sound(scan.env)
      modifies store
      ensures store.Valid()
      ensures Progress(old(store.State()), store.State(), scan, |scan.processes|, inferred, seen, pids)
    {
      ghost var pre := store.State();
      store.RecordsKeyed();
      seen, pids, inferred := {}, map[], [];
      for i := 0 to |scan.processes|
        invariant store.Valid()
        invariant Progress(pre, store.State(), scan, i, inferred, seen, pids)
      {
        ghost var mid := store.State();
        var proc := scan.processes[i];
        if Inferrable(proc, scan.env) {
          ProgressAgrees(pre, mid, scan, i, inferred, seen, pids, IdOf(proc, scan.env));
        }
        var claimed, found, id := ObserveOne(proc, scan, clock, pre);
        if !claimed {
          ProgressSkips(pre, mid, scan, i, inferred, seen, pids);
          continue;
        }
        ProgressClaims(pre, mid, store.State(), scan, i, inferred, seen, pids, found);
        seen := seen + {id};
        pids := pids[found.pid := id];
        inferred := inferred + [found];
      }
    }

    /** Point an inferred child at its parent and at the parent's current root; leave any other child alone. */
    method LinkChild(childId: string, parentId: string, clock: Instant)
      requires store.Valid() && parentId != ""
      modifies store
      ensures store.Valid() && store.edges == old(store.edges) && store.workspaces == old(store.workspaces)
      ensures store.sessions ==
        if childId in old(store.sessions) && IsInferred(old(store.sessions)[childId]) then
          old(store.sessions)[childId := old(store.sessions)[childId].(
            parentId := parentId,
            rootId := if parentId in old(store.sessions) then old(store.sessions)[parentId].rootId else parentId)]
        else old(store.sessions)
      ensures Quiet(old(store.history), store.history)
    {
      store.RecordsKeyed();
      var child := store.GetSession(childId);
      if child.Some? && IsInferred(child.value) {
        var linked := child.value.(parentId := parentId, rootId := parentId);
        var parent := store.GetSession(parentId);
        if parent.Some? && parent.value.rootId != "" {
          linked := linked.(rootId := parent.value.rootId);
        }
        NormalizeCompletes(linked, clock);
        var _ := store.UpsertSession(linked, clock);
      }
    }

    /** The body of the second loop for one process. */
    method LinkProcess(p: Process, pids: map<int, string>, now: Instant, clock: Instant) returns (seen: set<string>)
      requires store.Valid() && PidsLive(pids, store.sessions)
      modifies store
      ensures store.Valid()
      ensures LinkedOne(old(store.State()), store.State(), p, pids, now) && seen == EdgeSeen(p, pids)
    {
      seen := {};
      var parentId := if p.ppid in pids then pids[p.ppid] else "";
      var childId := if p.pid in pids then pids[p.pid] else "";
      if parentId == "" || childId == "" {
        return;
      }
      LinkChild(childId, parentId, clock);
      ghost var h := store.history;
      var edgeId := EdgeId(childId, parentId);
      seen := {edgeId};
      var _ := store.UpsertEdge(
        Edge(edgeId, childId, parentId, "spawned_by", "process", CONFIDENCE_LOW, now), clock);
      if edgeId in old(store.edges) {
        QuietTransitive(old(store.history), h, store.history);
      }
    }

    /** The second loop: parents, roots and edges. */
    method LinkProcesses(ps: seq<Process>, pids: map<int, string>, now: Instant, clock: Instant)
      returns (seenEdges: set<string>)
      requires store.Valid() && PidsLive(pids, store.sessions)
      modifies store
      ensures store.Valid()
      ensures LinkProgress(old(store.State()), store.State(), ps, |ps|, pids, now, seenEdges)
    {
      ghost var pre := store.State();
      seenEdges := {};
      for i := 0 to |ps|
        invariant store.Valid()
        invariant LinkProgress(pre, store.State(), ps, i, pids, now, seenEdges)
      {
        ghost var mid := store.State();
        var seen := LinkProcess(ps[i], pids, now, clock);
        LinkProgressStep(pre, mid, store.State(), ps, i, pids, now, seenEdges);
        seenEdges := seenEdges + seen;
      }
    }

    /** The third loop, over a listing of the sessions. */
    method RemoveStaleSessions(listed: seq<Session>, seen: set<string>)
      requires store.Valid()
      modifies store
      ensures store.Valid() && SweepProgress(old(store.State()), store.State(), listed, |listed|, seen)
    {
      ghost var pre := store.State();
      for i := 0 to |listed|
        invariant store.Valid() && SweepProgress(pre, store.State(), listed, i, seen)
      {
        ghost var mid := store.State();
        if IsInferred(listed[i]) && listed[i].id !in seen {
          var _ := store.RemoveSession(listed[i].id);
        }
        SweepStep(pre, mid, store.State(), listed, i, seen);
      }
    }

    /** Remove the inferred sessions the scan did not see. */
    method SweepSessions(seen: set<string>)
      requires store.Valid()
      modifies store
      ensures store.Valid() && store.edges == old(store.edges) && store.workspaces == old(store.workspaces)
      ensures store.sessions == KeptSessions(old(store.sessions), seen)
      ensures KeptSessions(old(store.sessions), seen) == old(store.sessions) ==> store.history == old(store.history)
    {
      store.RecordsKeyed();
      var listed := store.ListSessions(EVERYTHING);
      SweepKeeps(store.State(), listed, seen);
      assert listed[..|listed|] == listed;
      RemoveStaleSessions(listed, seen);
    }

    /** The fourth loop, over a listing of the edges. */
    method RemoveStaleEdges(listed: seq<Edge>, seen: set<string>)
      requires store.Valid()
      modifies store
      ensures store.Valid() && EdgeSweepProgress(old(store.State()), store.State(), listed, |listed|, seen)
    {
      ghost var pre := store.State();
      for i := 0 to |listed|
        invariant store.Valid() && EdgeSweepProgress(pre, store.State(), listed, i, seen)
      {
        ghost var mid := store.State();
        if HasPrefix(listed[i].id, EDGE_PREFIX) && listed[i].id !in seen {
          var _ := store.RemoveEdge(listed[i].id);
        }
        EdgeSweepStep(pre, mid, store.State(), listed, i, seen);
      }
    }

    /** Remove the process edges the scan did not see. */
    method SweepEdges(seen: set<string>)
      requires store.Valid()
      modifies store
      ensures store.Valid() && store.sessions == old(store.sessions) && store.workspaces == old(store.workspaces)
      ensures store.edges == KeptEdges(old(store.edges), seen)
      ensures KeptEdges(old(store.edges), seen) == old(store.edges) ==> store.history == old(store.history)
    {
      store.RecordsKeyed();
      var listed := store.ListEdges();
      SweepKeepsEdges(store.State(), listed, seen);
      assert listed[..|listed|] == listed;
      RemoveStaleEdges(listed, seen);
    }

    /**
     * reconcileProcessSessions: whatever order the sweeps take, the store ends up as the closed
     * form says, and a store that already agrees with the scan only gets refresh events.
     */
    method Reconcile(listing: Option<seq<Process>>, host: Host, now: Instant, clock: Instant) returns (ok: bool)
      requires store.Valid()
      modifies store
      ensures store.Valid() && ok == listing.Some?
      ensures !ok ==> store.State() == old(store.State())
      ensures ok ==>
        var scan := Scan(listing.value, EnvOf(host), now);
        && store.sessions == SettleSessions(old(store.sessions), scan)
        && store.edges == SettleEdges(old(store.sessions), old(store.edges), scan)
        && store.workspaces == SettleWorkspaces(old(store.sessions), old(store.workspaces), scan)
        && (Settled(old(store.State()), scan) ==> Quiet(old(store.history), store.history))
    {
      ok := listing.Some?;
      if !ok {
        return;
      }
      var env := EnvOf(host);
      EnvOfIsSound(host);
      ReconcileScan(Scan(listing.value, env, now), clock);
    }

    method ReconcileScan(scan: Scan, clock: Instant)
      requires store.Valid() && Sound(scan.env)
      modifies store
      ensures store.Valid()
      ensures store.sessions == SettleSessions(old(store.sessions), scan)
      ensures store.edges == SettleEdges(old(store.sessions), old(store.edges), scan)
      ensures store.workspaces == SettleWorkspaces(old(store.sessions), old(store.workspaces), scan)
      ensures Settled(old(store.State()), scan) ==> Quiet(old(store.history), store.history)
    {
      ghost var pre := store.State();
      var seen, pids, inferred := ObserveProcesses(scan, clock);
      ghost var mid := store.State();
      PidsLiveAfterObserving(pre, mid, scan, inferred, seen, pids);
      var seenEdges := LinkProcesses(inferred, pids, scan.now, clock);
      AfterLinking(pre, mid, store.State(), scan, inferred, seen, pids, seenEdges);
      SweptIsSettled(pre, scan);
      if Settled(pre, scan) { NothingStale(pre, scan); }
      SweepSessions(seen);
      SweepEdges(seenEdges);
    }
  }
}
