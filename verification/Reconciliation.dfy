/** What reconciling guarantees: a fixpoint, exact counts, a forest of roots, and lineage. */
module Reconciliation {
  import opened Model
  import opened Text
  import opened StoreSpec
  import opened Stores
  import opened Inference
  import opened Forest
  import opened ReconcileSpec
  import opened Handlers

  // ----- Fixpoint -----

  lemma {:induction false} ClaimDependsOnNatives(a: map<string, Session>, b: map<string, Session>,
                                                 processes: seq<Process>, env: Env)
    requires forall id :: NativelyOwned(a, id) == NativelyOwned(b, id)
    ensures Claim(a, processes, env) == Claim(b, processes, env)
  {
    if processes != [] { ClaimDependsOnNatives(a, b, processes[..|processes| - 1], env); }
  }

  lemma NativesDecide(a: map<string, Session>, b: map<string, Session>)
    requires Natives(a) == Natives(b)
    ensures forall id :: NativelyOwned(a, id) == NativelyOwned(b, id)
  {
    forall id ensures NativelyOwned(a, id) == NativelyOwned(b, id) {
      assert NativelyOwned(a, id) == (id in Natives(a));
      assert NativelyOwned(b, id) == (id in Natives(b));
    }
  }

  /** A second scan of the same processes claims the same ones. */
  lemma ClaimedAgain(sessions: map<string, Session>, scan: Scan, again: Scan)
    requires again.processes == scan.processes && again.env == scan.env
    ensures Claimed(SettleSessions(sessions, scan), again) == Claimed(sessions, scan)
  {
    SessionsExact(sessions, scan);
    NativesDecide(SettleSessions(sessions, scan), sessions);
    ClaimDependsOnNatives(SettleSessions(sessions, scan), sessions, scan.processes, scan.env);
  }

  lemma {:induction false} RecordsDependOnStarts(a: map<string, Session>, b: map<string, Session>,
                                                 ps: seq<Process>, env: Env, now: Instant)
    requires AllInferrable(ps, env)
    requires forall id :: Names(ps, env, id) ==> StartOf(a, id, now) == StartOf(b, id, now)
    ensures Records(a, ps, env, now) == Records(b, ps, env, now)
  {
    if ps != [] {
      var front, p := ps[..|ps| - 1], ps[|ps| - 1];
      assert ps == front + [p];
      forall id | Names(front, env, id) ensures StartOf(a, id, now) == StartOf(b, id, now) {
        NamesSnoc(front, p, env, id);
      }
      NamesSnoc(front, p, env, IdOf(p, env));
      RecordsDependOnStarts(a, b, front, env, now);
    }
  }

  lemma LinkedAgain(sessions: map<string, Session>, scan: Scan)
    ensures Linked(SettleSessions(sessions, scan), scan) == Linked(sessions, scan)
  {
    var after := SettleSessions(sessions, scan);
    var ps := Claimed(sessions, scan);
    ClaimedAgain(sessions, scan, scan);
    LinkedShape(sessions, scan);
    forall id | Names(ps, scan.env, id) ensures StartOf(after, id, scan.now) == StartOf(sessions, id, scan.now) {
      RecordsKeys(sessions, ps, scan.env, scan.now, id);
    }
    RecordsDependOnStarts(after, sessions, ps, scan.env, scan.now);
  }

  /** Repeating a reconciliation with the same processes, lookups and clock changes none of the three maps. */
  lemma ReconcileIsFixpoint(st: Snapshot, scan: Scan)
    ensures var sessions := SettleSessions(st.sessions, scan);
            var edges := SettleEdges(st.sessions, st.edges, scan);
            var workspaces := SettleWorkspaces(st.sessions, st.workspaces, scan);
            && SettleSessions(sessions, scan) == sessions
            && SettleEdges(sessions, edges, scan) == edges
            && SettleWorkspaces(sessions, workspaces, scan) == workspaces
  {
    SessionsExact(st.sessions, scan);
    LinkedAgain(st.sessions, scan);
    ClaimedAgain(st.sessions, scan, scan);
    EdgesExact(st.sessions, st.edges, scan);
    OverlayTwice(st.workspaces, Places(Claimed(st.sessions, scan), scan.env, scan.now));
  }

  lemma OverlayTwice<K, V>(a: map<K, V>, m: map<K, V>)
    ensures (a + m) + m == a + m
  {
  }

  lemma {:induction false} PlacesHas(ps: seq<Process>, env: Env, now: Instant, p: Process)
    requires AllInferrable(ps, env) && p in ps && Found(p, env, now).cwd != ""
    ensures "workspace:" + Found(p, env, now).cwd in Places(ps, env, now)
  {
    var front, q := ps[..|ps| - 1], ps[|ps| - 1];
    if p != q {
      assert p in front;
      PlacesHas(front, env, now, p);
    }
  }

  lemma KnownAfter(st: Snapshot, scan: Scan, again: Scan, after: Snapshot, p: Process)
    requires again.processes == scan.processes && again.env == scan.env
    requires after.sessions == SettleSessions(st.sessions, scan)
    requires after.workspaces == SettleWorkspaces(st.sessions, st.workspaces, scan)
    requires p in Claimed(st.sessions, scan)
    ensures Known(after.sessions, after.workspaces, p, again)
  {
    var ps := Claimed(st.sessions, scan);
    LinkedShape(st.sessions, scan);
    assert Names(ps, scan.env, IdOf(p, scan.env));
    RecordsKeys(st.sessions, ps, scan.env, scan.now, IdOf(p, scan.env));
    assert Found(p, scan.env, scan.now).cwd == Found(p, scan.env, again.now).cwd;
    if Found(p, scan.env, scan.now).cwd != "" { PlacesHas(ps, scan.env, scan.now, p); }
  }

  /**
   * After a reconciliation the store is settled for every later scan of the same processes,
   * whatever its clock: by Reconcile's contract that scan appends refresh events only, so no
   * started, status-changed, removed, discovered, child-spawned or edge-removed event.
   */
  lemma ReconciledIsSettled(st: Snapshot, scan: Scan, again: Scan, after: Snapshot)
    requires again.processes == scan.processes && again.env == scan.env
    requires after.sessions == SettleSessions(st.sessions, scan)
    requires after.edges == SettleEdges(st.sessions, st.edges, scan)
    requires after.workspaces == SettleWorkspaces(st.sessions, st.workspaces, scan)
    ensures Settled(after, again)
  {
    var ps := Claimed(st.sessions, scan);
    ClaimedAgain(st.sessions, scan, again);
    forall p | p in ps ensures Known(after.sessions, after.workspaces, p, again) {
      KnownAfter(st, scan, again, after, p);
    }
    SpawnsShape(ps, PidMap(ps, scan.env), scan.now);
    SpawnsShape(ps, PidMap(ps, scan.env), again.now);
    forall id | id in after.sessions && IsInferred(after.sessions[id]) ensures id in Linked(after.sessions, again) {
      LinkedKeys(st.sessions, scan);
      LinkedKeys(after.sessions, again);
      RecordsKeys(st.sessions, ps, scan.env, scan.now, id);
      RecordsKeys(after.sessions, ps, scan.env, again.now, id);
    }
  }

  /** Two reconciliations of the same processes: the second is quiet, and changes nothing at the same clock. */
  method ReconcileTwice(handler: Handler, processes: seq<Process>, host: Host, now: Instant, later: Instant,
                        clock: Instant)
    returns (ghost between: Snapshot)
    requires handler.store.Valid()
    modifies handler.store
    ensures handler.store.Valid()
    ensures Quiet(between.history, handler.store.history)
    ensures handler.store.workspaces.Keys == between.workspaces.Keys && handler.store.edges.Keys == between.edges.Keys
    ensures later == now ==>
      && handler.store.sessions == between.sessions
      && handler.store.edges == between.edges
      && handler.store.workspaces == between.workspaces
  {
    ghost var before := handler.store.State();
    var _ := handler.Reconcile(Some(processes), host, now, clock);
    between := handler.store.State();
    var _ := handler.Reconcile(Some(processes), host, later, clock);
    ghost var env := EnvOf(host);
    ReconciledIsSettled(before, Scan(processes, env, now), Scan(processes, env, later), between);
    ReconcileIsFixpoint(before, Scan(processes, env, now));
    SettledKeys(between, Scan(processes, env, later));
  }

  /** A settled store keeps its workspace and edge identifiers. */
  lemma SettledKeys(st: Snapshot, scan: Scan)
    requires Settled(st, scan)
    ensures SettleEdges(st.sessions, st.edges, scan).Keys == st.edges.Keys
    ensures SettleWorkspaces(st.sessions, st.workspaces, scan).Keys == st.workspaces.Keys
  {
    PlacesKeys(Claimed(st.sessions, scan), scan, st);
  }

  lemma {:induction false} PlacesKeys(ps: seq<Process>, scan: Scan, st: Snapshot)
    requires AllInferrable(ps, scan.env) && AllKnown(st, ps, scan)
    ensures Places(ps, scan.env, scan.now).Keys <= st.workspaces.Keys
  {
    if ps != [] {
      var front, p := ps[..|ps| - 1], ps[|ps| - 1];
      assert ps == front + [p];
      AllKnownSnoc(st, front, p, scan);
      PlacesKeys(front, scan, st);
    }
  }

  // ----- Distinct pids: one session per claimed process -----

  ghost predicate HasPid(ps: seq<Process>, pid: int) {
    exists p :: p in ps && p.pid == pid
  }

  lemma {:induction false} ClaimHasPid(sessions: map<string, Session>, processes: seq<Process>, env: Env, pid: int)
    requires HasPid(Claim(sessions, processes, env), pid)
    ensures HasPid(processes, pid)
  {
    var q :| q in Claim(sessions, processes, env) && q.pid == pid;
    var front, p := processes[..|processes| - 1], processes[|processes| - 1];
    if q in Claim(sessions, front, env) {
      ClaimHasPid(sessions, front, env, pid);
      var r :| r in front && r.pid == pid;
      assert r in processes;
    } else {
      assert p in processes;
    }
  }

  lemma DistinctSnoc(ps: seq<Process>, p: Process)
    requires DistinctPids(ps) && !HasPid(ps, p.pid)
    ensures DistinctPids(ps + [p])
  {
    forall i | 0 <= i < |ps| ensures ps[i].pid != p.pid { assert ps[i] in ps; }
  }

  lemma DistinctLast(ps: seq<Process>)
    requires DistinctPids(ps) && ps != []
    ensures DistinctPids(ps[..|ps| - 1]) && !HasPid(ps[..|ps| - 1], ps[|ps| - 1].pid)
  {
  }

  lemma {:induction false} ClaimPids(sessions: map<string, Session>, processes: seq<Process>, env: Env)
    requires DistinctPids(processes)
    ensures DistinctPids(Claim(sessions, processes, env))
  {
    if processes != [] {
      var front, p := processes[..|processes| - 1], processes[|processes| - 1];
      DistinctLast(processes);
      ClaimPids(sessions, front, env);
      if HasPid(Claim(sessions, front, env), p.pid) { ClaimHasPid(sessions, front, env, p.pid); }
      if Claims(sessions, p, env) { DistinctSnoc(Claim(sessions, front, env), Resolve(p, env)); }
    }
  }

  lemma IdsDiffer(ps: seq<Process>, env: Env, i: nat, j: nat)
    requires Sound(env) && AllInferrable(ps, env) && DistinctPids(ps) && i < |ps| && j < |ps|
    ensures IdOf(ps[i], env) == IdOf(ps[j], env) <==> i == j
    ensures IdOf(ps[i], env) != ""
  {
    SessionIdShape(SourceOf(ps[i], env), ps[i].pid);
    if IdOf(ps[i], env) == IdOf(ps[j], env) {
      SessionIdInjective(SourceOf(ps[i], env), ps[i].pid, SourceOf(ps[j], env), ps[j].pid);
    }
  }

  lemma LastIdIsNew(ps: seq<Process>, env: Env)
    requires Sound(env) && AllInferrable(ps, env) && DistinctPids(ps) && ps != []
    ensures !Names(ps[..|ps| - 1], env, IdOf(ps[|ps| - 1], env))
  {
    var k := |ps| - 1;
    forall i | 0 <= i < k ensures IdOf(ps[i], env) != IdOf(ps[k], env) { IdsDiffer(ps, env, i, k); }
  }

  lemma {:induction false} RecordsCount(base: map<string, Session>, ps: seq<Process>, env: Env, now: Instant)
    requires Sound(env) && AllInferrable(ps, env) && DistinctPids(ps)
    ensures |Records(base, ps, env, now)| == |ps|
  {
    if ps != [] {
      var front, p := ps[..|ps| - 1], ps[|ps| - 1];
      RecordsCount(base, front, env, now);
      RecordsKeys(base, front, env, now, IdOf(p, env));
      LastIdIsNew(ps, env);
    }
  }

  /** Positions of the processes the reconciler may claim. */
  ghost function ClaimablePositions(sessions: map<string, Session>, processes: seq<Process>, env: Env): set<int> {
    set i | 0 <= i < |processes| && Claims(sessions, processes[i], env)
  }

  lemma PositionsAre(sessions: map<string, Session>, processes: seq<Process>, p: Process, env: Env)
    ensures ClaimablePositions(sessions, processes + [p], env)
            == ClaimablePositions(sessions, processes, env) + (if Claims(sessions, p, env) then {|processes|} else {})
  {
    var all := processes + [p];
    assert forall i :: 0 <= i < |processes| ==> all[i] == processes[i];
  }

  lemma PositionsSnoc(sessions: map<string, Session>, processes: seq<Process>, p: Process, env: Env)
    ensures |ClaimablePositions(sessions, processes + [p], env)|
            == |ClaimablePositions(sessions, processes, env)| + (if Claims(sessions, p, env) then 1 else 0)
  {
    PositionsAre(sessions, processes, p, env);
  }

  lemma {:induction false} ClaimCount(sessions: map<string, Session>, processes: seq<Process>, env: Env)
    ensures |Claim(sessions, processes, env)| == |ClaimablePositions(sessions, processes, env)|
  {
    if processes != [] {
      var front, p := processes[..|processes| - 1], processes[|processes| - 1];
      ClaimCount(sessions, front, env);
      ClaimSnoc(sessions, front, p, env);
      PositionsSnoc(sessions, front, p, env);
      assert processes == front + [p];
    }
  }

  /** With distinct pids there are as many inferred sessions as inferrable processes not owned natively. */
  lemma InferredCount(sessions: map<string, Session>, scan: Scan)
    requires Sound(scan.env) && DistinctPids(scan.processes)
    ensures |InferredIds(SettleSessions(sessions, scan))| == |ClaimablePositions(sessions, scan.processes, scan.env)|
  {
    var ps := Claimed(sessions, scan);
    ClaimPids(sessions, scan.processes, scan.env);
    ClaimCount(sessions, scan.processes, scan.env);
    RecordsCount(sessions, ps, scan.env, scan.now);
    LinkedShape(sessions, scan);
    assert InferredIds(SettleSessions(sessions, scan)) == Linked(sessions, scan).Keys;
    assert |Records(sessions, ps, scan.env, scan.now)| == |Records(sessions, ps, scan.env, scan.now).Keys|;
  }

  /** Positions in the process list of the claimed processes, in order. */
  ghost function ClaimPositions(sessions: map<string, Session>, processes: seq<Process>, env: Env): seq<nat> {
    if processes == [] then []
    else
      var front := ClaimPositions(sessions, processes[..|processes| - 1], env);
      if Claims(sessions, processes[|processes| - 1], env) then front + [|processes| - 1] else front
  }

  lemma {:induction false} ClaimEmbeds(sessions: map<string, Session>, processes: seq<Process>, env: Env)
    ensures Embeds(Claim(sessions, processes, env), processes, ClaimPositions(sessions, processes, env))
  {
    if processes != [] {
      var n := |processes| - 1;
      var front := processes[..n];
      ClaimEmbeds(sessions, front, env);
      EmbedsLonger(Claim(sessions, front, env), front, ClaimPositions(sessions, front, env), processes[n]);
      assert processes == front + [processes[n]];
    }
  }

  lemma EmbedsLonger(sub: seq<Process>, all: seq<Process>, pos: seq<nat>, p: Process)
    requires Embeds(sub, all, pos)
    ensures Embeds(sub, all + [p], pos)
    ensures forall q: Process :: q.pid == p.pid && q.ppid == p.ppid ==> Embeds(sub + [q], all + [p], pos + [|all|])
  {
  }

  /**
   * A process list that is parent-first, has only top late parents, or has no cycles passes that on to
   * the claimed processes.
   */
  lemma ClaimedInherits(sessions: map<string, Session>, scan: Scan)
    requires DistinctPids(scan.processes)
    ensures ParentFirst(scan.processes) ==> ParentFirst(Claimed(sessions, scan))
    ensures LateParentsAreTop(scan.processes) ==> LateParentsAreTop(Claimed(sessions, scan))
    ensures Acyclic(scan.processes) ==> Acyclic(Claimed(sessions, scan))
  {
    var pos := ClaimPositions(sessions, scan.processes, scan.env);
    ClaimEmbeds(sessions, scan.processes, scan.env);
    EmbeddingKeepsOrder(Claimed(sessions, scan), scan.processes, pos);
  }

  // ----- Roots -----

  lemma {:induction false} PidMapIndex(ps: seq<Process>, env: Env, pid: int)
    requires AllInferrable(ps, env)
    ensures pid in PidMap(ps, env) <==> IndexOf(ps, pid) >= 0
    ensures pid in PidMap(ps, env) ==> PidMap(ps, env)[pid] == IdOf(ps[IndexOf(ps, pid)], env)
  {
    if ps != [] { PidMapIndex(ps[..|ps| - 1], env, pid); }
  }

  /** Session `s` of process `i` carries the links it should have after the first `k` processes were linked. */
  ghost predicate HasLinks(s: Session, ps: seq<Process>, env: Env, i: nat, k: nat)
    requires AllInferrable(ps, env) && i < |ps|
  {
    && s.rootId == IdOf(ps[if i < k then RootOf(ps, i) else i], env)
    && s.parentId == (if i < k && Parent(ps, i) != -1 then IdOf(ps[Parent(ps, i)], env) else "")
  }

  ghost predicate LinksAt(m: map<string, Session>, ps: seq<Process>, env: Env, i: nat, k: nat)
    requires AllInferrable(ps, env) && i < |ps|
  {
    IdOf(ps[i], env) in m && HasLinks(m[IdOf(ps[i], env)], ps, env, i, k)
  }

  ghost predicate LinksUpTo(m: map<string, Session>, ps: seq<Process>, env: Env, k: nat)
    requires AllInferrable(ps, env)
  {
    forall i :: 0 <= i < |ps| ==> LinksAt(m, ps, env, i, k)
  }

  lemma LinkOneIs(m: map<string, Session>, ps: seq<Process>, env: Env, k: nat)
    requires Sound(env) && AllInferrable(ps, env) && DistinctPids(ps) && k < |ps| && LinksUpTo(m, ps, env, k)
    ensures var p := Parent(ps, k);
            && IdOf(ps[k], env) in m
            && (p != -1 ==> IdOf(ps[p], env) in m)
            && LinkOne(m, ps[k], PidMap(ps, env)) ==
                 if p == -1 then m
                 else m[IdOf(ps[k], env) :=
                   m[IdOf(ps[k], env)].(parentId := IdOf(ps[p], env), rootId := m[IdOf(ps[p], env)].rootId)]
  {
    PidMapIndex(ps, env, ps[k].pid);
    PidMapIndex(ps, env, ps[k].ppid);
    assert IndexOf(ps, ps[k].pid) == k;
    assert LinksAt(m, ps, env, k, k);
    var p := Parent(ps, k);
    if p != -1 { assert LinksAt(m, ps, env, p, k); }
  }

  lemma LinkStepOther(m: map<string, Session>, ps: seq<Process>, env: Env, k: nat, i: nat)
    requires Sound(env) && AllInferrable(ps, env) && DistinctPids(ps) && k < |ps| && i < |ps|
             && LinksUpTo(m, ps, env, k)
    requires i != k
    ensures LinksAt(LinkOne(m, ps[k], PidMap(ps, env)), ps, env, i, k + 1)
  {
    LinkOneIs(m, ps, env, k);
    IdsDiffer(ps, env, i, k);
    assert LinksAt(m, ps, env, i, k);
  }

  lemma LinkStepSelf(m: map<string, Session>, ps: seq<Process>, env: Env, k: nat)
    requires Sound(env) && AllInferrable(ps, env) && DistinctPids(ps) && k < |ps| && LinksUpTo(m, ps, env, k)
    ensures LinksAt(LinkOne(m, ps[k], PidMap(ps, env)), ps, env, k, k + 1)
  {
    LinkOneIs(m, ps, env, k);
    assert LinksAt(m, ps, env, k, k);
    var p := Parent(ps, k);
    if p != -1 { assert LinksAt(m, ps, env, p, k); }
  }

  lemma LinkStep(m: map<string, Session>, ps: seq<Process>, env: Env, k: nat)
    requires Sound(env) && AllInferrable(ps, env) && DistinctPids(ps) && k < |ps| && LinksUpTo(m, ps, env, k)
    ensures LinksUpTo(LinkOne(m, ps[k], PidMap(ps, env)), ps, env, k + 1)
  {
    var after, next := LinkOne(m, ps[k], PidMap(ps, env)), k + 1;
    forall i | 0 <= i < |ps| ensures LinksAt(after, ps, env, i, next) {
      if i == k { LinkStepSelf(m, ps, env, k); } else { LinkStepOther(m, ps, env, k, i); }
    }
  }

  /** Linking the first `k` processes. */
  ghost function LinkFirst(m: map<string, Session>, ps: seq<Process>, pids: map<int, string>, k: nat)
    : map<string, Session>
    requires k <= |ps|
  {
    if k == 0 then m else LinkOne(LinkFirst(m, ps, pids, k - 1), ps[k - 1], pids)
  }

  lemma {:induction false} LinkFirstIs(m: map<string, Session>, ps: seq<Process>, pids: map<int, string>, k: nat)
    requires k <= |ps|
    ensures LinkFirst(m, ps, pids, k) == Link(m, ps[..k], pids)
  {
    if k > 0 {
      LinkFirstIs(m, ps, pids, k - 1);
      LinkSnoc(m, ps[..k - 1], ps[k - 1], pids);
      assert ps[..k] == ps[..k - 1] + [ps[k - 1]];
    }
  }

  lemma LinkFirstNone(m: map<string, Session>, ps: seq<Process>, pids: map<int, string>)
    ensures LinkFirst(m, ps, pids, 0) == m
  {
  }

  lemma LinkFirstStep(m: map<string, Session>, ps: seq<Process>, env: Env, k: nat, mid: map<string, Session>)
    requires Sound(env) && AllInferrable(ps, env) && DistinctPids(ps) && k < |ps|
    requires mid == LinkFirst(m, ps, PidMap(ps, env), k) && LinksUpTo(mid, ps, env, k)
    ensures LinksUpTo(LinkFirst(m, ps, PidMap(ps, env), k + 1), ps, env, k + 1)
  {
    LinkStep(mid, ps, env, k);
    assert LinkFirst(m, ps, PidMap(ps, env), k + 1) == LinkOne(mid, ps[k], PidMap(ps, env));
  }

  lemma {:induction false} LinkRoots(m: map<string, Session>, ps: seq<Process>, env: Env, k: nat)
    requires Sound(env) && AllInferrable(ps, env) && DistinctPids(ps) && k <= |ps| && LinksUpTo(m, ps, env, 0)
    ensures LinksUpTo(LinkFirst(m, ps, PidMap(ps, env), k), ps, env, k)
  {
    if k == 0 {
      LinkFirstNone(m, ps, PidMap(ps, env));
    } else {
      LinkRoots(m, ps, env, k - 1);
      LinkFirstStep(m, ps, env, k - 1, LinkFirst(m, ps, PidMap(ps, env), k - 1));
    }
  }

  /**
   * For any list with distinct pids: a session's parent is its inferred parent process, and its
   * root is itself without one, the parent's final root if the parent comes earlier, and the
   * parent otherwise.
   */
  lemma RootsExact(sessions: map<string, Session>, scan: Scan, i: nat)
    requires Sound(scan.env) && DistinctPids(scan.processes) && i < |Claimed(sessions, scan)|
    ensures var ps := Claimed(sessions, scan);
            var after := SettleSessions(sessions, scan);
            var id := IdOf(ps[i], scan.env);
            && id in after && after[id].id == id && IsInferred(after[id])
            && HasLinks(after[id], ps, scan.env, i, |ps|)
  {
    var ps := Claimed(sessions, scan);
    var records := Records(sessions, ps, scan.env, scan.now);
    ClaimPids(sessions, scan.processes, scan.env);
    forall j | 0 <= j < |ps| ensures LinksAt(records, ps, scan.env, j, 0) {
      assert ps[j] in ps && Names(ps, scan.env, IdOf(ps[j], scan.env));
      RecordsKeys(sessions, ps, scan.env, scan.now, IdOf(ps[j], scan.env));
      RecordsFresh(sessions, ps, scan.env, scan.now, IdOf(ps[j], scan.env));
    }
    LinkRoots(records, ps, scan.env, |ps|);
    LinkFirstIs(records, ps, PidMap(ps, scan.env), |ps|);
    assert ps[..|ps|] == ps;
    assert LinksAt(Linked(sessions, scan), ps, scan.env, i, |ps|);
    LinkedShape(sessions, scan);
  }

  /** One more process writes its own record and leaves the others alone. */
  lemma RecordStep(base: map<string, Session>, front: seq<Process>, p: Process, env: Env, now: Instant, id: string,
                   r: Session)
    requires AllInferrable(front, env) && Inferrable(p, env)
    requires if id == IdOf(p, env) then r == Record(base, p, env, now)
             else id in Records(base, front, env, now) && Records(base, front, env, now)[id] == r
    ensures AllInferrable(front + [p], env)
    ensures id in Records(base, front + [p], env, now) && Records(base, front + [p], env, now)[id] == r
  {
    RecordsSnoc(base, front, p, env, now);
  }

  lemma {:induction false} RecordAt(base: map<string, Session>, ps: seq<Process>, env: Env, now: Instant, i: nat,
                                    id: string, r: Session)
    requires Sound(env) && AllInferrable(ps, env) && DistinctPids(ps) && i < |ps|
    requires id == IdOf(ps[i], env) && r == Record(base, ps[i], env, now)
    ensures id in Records(base, ps, env, now) && Records(base, ps, env, now)[id] == r
  {
    var k := |ps| - 1;
    var front, p := ps[..k], ps[k];
    assert ps == front + [p];
    if i < k {
      IdsDiffer(ps, env, i, k);
      RecordAt(base, front, env, now, i, id, r);
    }
    RecordStep(base, front, p, env, now, id, r);
  }

  /** Apart from its links, every field of an inferred session is the one inferred from its process. */
  lemma RecordLinked(sessions: map<string, Session>, scan: Scan, i: nat)
    requires Sound(scan.env) && DistinctPids(scan.processes) && i < |Claimed(sessions, scan)|
    ensures var ps := Claimed(sessions, scan);
            var after := SettleSessions(sessions, scan);
            var id := IdOf(ps[i], scan.env);
            id in after && SameButLinks(Record(sessions, ps[i], scan.env, scan.now), after[id])
  {
    var ps := Claimed(sessions, scan);
    ClaimPids(sessions, scan.processes, scan.env);
    RecordAt(sessions, ps, scan.env, scan.now, i, IdOf(ps[i], scan.env), Record(sessions, ps[i], scan.env, scan.now));
    LinkKeeps(Records(sessions, ps, scan.env, scan.now), ps, PidMap(ps, scan.env));
  }

  lemma {:induction false} ClaimHolds(sessions: map<string, Session>, processes: seq<Process>, env: Env, p: Process)
    requires p in processes && Claims(sessions, p, env)
    ensures Resolve(p, env) in Claim(sessions, processes, env)
  {
    var front, last := processes[..|processes| - 1], processes[|processes| - 1];
    assert processes == front + [last];
    if p in front { ClaimHolds(sessions, front, env, p); }
  }

  /**
   * What the store says about a process of the table that no native session owns: its agent,
   * its directory as listed or looked up, its runtime and its process data.
   */
  lemma RecordsExact(sessions: map<string, Session>, scan: Scan, p: Process)
    requires Sound(scan.env) && DistinctPids(scan.processes)
    requires p in scan.processes && Claims(sessions, p, scan.env)
    ensures var after := SettleSessions(sessions, scan);
            var id := IdOf(p, scan.env);
            && id in after
            && Describes(after[id], p, SourceOf(p, scan.env), Directory(p, scan.env))
            && after[id].startedAt == StartOf(sessions, id, scan.now) && after[id].lastActivityAt == scan.now
  {
    ClaimHolds(sessions, scan.processes, scan.env, p);
    var ps := Claimed(sessions, scan);
    var i :| 0 <= i < |ps| && ps[i] == Resolve(p, scan.env);
    RecordLinked(sessions, scan, i);
    RecordDescribes(sessions, p, scan.env, scan.now);
    FoundResolved(p, scan.env, scan.now);
  }

  /** Listing by source finds the session of such a process exactly when inference gives it that source. */
  lemma SourceFilterFinds(sessions: map<string, Session>, processes: seq<Process>, host: Host, now: Instant,
                          p: Process, all: bool, source: string)
    requires DistinctPids(processes) && p in processes && Claims(sessions, p, EnvOf(host)) && source != ""
    ensures var after := SettleSessions(sessions, Scan(processes, EnvOf(host), now));
            var id := IdOf(p, EnvOf(host));
            && id in after
            && (Matches(SessionFilter(all, [], "", source), after[id])
                <==> InferSource(p.command, p.args, host) == Some(source))
  {
    EnvOfIsSound(host);
    RecordsExact(sessions, Scan(processes, EnvOf(host), now), p);
    var s := SettleSessions(sessions, Scan(processes, EnvOf(host), now))[IdOf(p, EnvOf(host))];
    ListingExact(SessionFilter(all, [], "", source), s);
  }

  /** The process edges are the pairs (process, inferred parent). */
  lemma EdgesArePairs(sessions: map<string, Session>, edges: map<string, Edge>, scan: Scan, id: string)
    requires DistinctPids(scan.processes)
    ensures (id in SettleEdges(sessions, edges, scan) && HasPrefix(id, EDGE_PREFIX))
            <==> PairId(Claimed(sessions, scan), scan.env, id)
  {
    var ps := Claimed(sessions, scan);
    var pids := PidMap(ps, scan.env);
    ClaimPids(sessions, scan.processes, scan.env);
    EdgesExact(sessions, edges, scan);
    if NamesPair(ps, pids, id) {
      var p :| p in ps && HasParent(p, pids) && EdgeId(pids[p.pid], pids[p.ppid]) == id;
      var i :| 0 <= i < |ps| && ps[i] == p;
      PairEnds(ps, scan.env, i);
      assert PairAt(ps, scan.env, i, id);
    }
    if PairId(ps, scan.env, id) {
      var i: nat :| i < |ps| && PairAt(ps, scan.env, i, id);
      PairEnds(ps, scan.env, i);
      assert ps[i] in ps;
    }
  }

  ghost predicate PairAt(ps: seq<Process>, env: Env, i: nat, id: string)
    requires AllInferrable(ps, env) && i < |ps|
  {
    Parent(ps, i) != -1 && id == EdgeId(IdOf(ps[i], env), IdOf(ps[Parent(ps, i)], env))
  }

  /** `id` names some process of the list and its parent in the list. */
  ghost predicate PairId(ps: seq<Process>, env: Env, id: string)
    requires AllInferrable(ps, env)
  {
    exists i: nat :: i < |ps| && PairAt(ps, env, i, id)
  }

  lemma PairEnds(ps: seq<Process>, env: Env, i: nat)
    requires AllInferrable(ps, env) && DistinctPids(ps) && i < |ps|
    ensures HasParent(ps[i], PidMap(ps, env)) <==> Parent(ps, i) != -1
    ensures Parent(ps, i) != -1 ==>
              PidMap(ps, env)[ps[i].pid] == IdOf(ps[i], env)
              && PidMap(ps, env)[ps[i].ppid] == IdOf(ps[Parent(ps, i)], env)
  {
    PidMapIndex(ps, env, ps[i].pid);
    PidMapIndex(ps, env, ps[i].ppid);
    assert IndexOf(ps, ps[i].pid) == i;
  }

  /** The edge of a process that has a parent in the list, field by field. */
  lemma EdgeRecorded(sessions: map<string, Session>, edges: map<string, Edge>, scan: Scan, i: nat)
    requires Sound(scan.env) && DistinctPids(scan.processes)
    requires i < |Claimed(sessions, scan)| && Parent(Claimed(sessions, scan), i) != -1
    ensures var ps := Claimed(sessions, scan);
            var after := SettleEdges(sessions, edges, scan);
            var child, parent := IdOf(ps[i], scan.env), IdOf(ps[Parent(ps, i)], scan.env);
            var id := "process:spawned_by:" + child + "->" + parent;
            id in after && after[id] == Edge(id, child, parent, "spawned_by", "process", "low", scan.now)
  {
    var ps := Claimed(sessions, scan);
    ClaimPids(sessions, scan.processes, scan.env);
    SpawnsPair(ps, scan.env, scan.now, i);
  }

  lemma SpawnsPair(ps: seq<Process>, env: Env, now: Instant, i: nat)
    requires Sound(env) && AllInferrable(ps, env) && DistinctPids(ps) && i < |ps| && Parent(ps, i) != -1
    ensures var child, parent := IdOf(ps[i], env), IdOf(ps[Parent(ps, i)], env);
            var id := "process:spawned_by:" + child + "->" + parent;
            var spawns := Spawns(ps, PidMap(ps, env), now);
            id in spawns && spawns[id] == Edge(id, child, parent, "spawned_by", "process", "low", now)
  {
    var pids := PidMap(ps, env);
    var id := EdgeId(IdOf(ps[i], env), IdOf(ps[Parent(ps, i)], env));
    PairEnds(ps, env, i);
    SpawnsShape(ps, pids, now);
    assert ps[i] in ps && NamesPair(ps, pids, id);
    SpawnsEnds(ps, pids, now, id);
    SpawnedBy(ps, env, now, i, id);
  }

  /** Only the process itself can have written the edge with its identifier. */
  lemma SpawnedBy(ps: seq<Process>, env: Env, now: Instant, i: nat, id: string)
    requires Sound(env) && AllInferrable(ps, env) && DistinctPids(ps) && i < |ps| && PairAt(ps, env, i, id)
    requires id in Spawns(ps, PidMap(ps, env), now)
    ensures var e := Spawns(ps, PidMap(ps, env), now)[id];
            e.from == IdOf(ps[i], env) && e.to == IdOf(ps[Parent(ps, i)], env)
  {
    var pids := PidMap(ps, env);
    SpawnsEnds(ps, pids, now, id);
    var e := Spawns(ps, pids, now)[id];
    var p :| p in ps && HasParent(p, pids) && e.from == pids[p.pid] && e.to == pids[p.ppid];
    var j :| 0 <= j < |ps| && ps[j] == p;
    PairEnds(ps, env, j);
    assert PairAt(ps, env, j, id);
    PairsDiffer(ps, env, i, j, id);
  }

  function ProcessEdgeIds(edges: map<string, Edge>): set<string> {
    set id | id in edges && HasPrefix(id, EDGE_PREFIX)
  }

  /** Positions that have a parent in the list. */
  ghost function ChildPositions(ps: seq<Process>): set<int> {
    set i | 0 <= i < |ps| && Parent(ps, i) != -1
  }

  /** The identifier of each process's edge, where it has one. */
  ghost function EdgeLabels(ps: seq<Process>, env: Env): (labels: seq<Option<string>>)
    requires AllInferrable(ps, env)
    ensures |labels| == |ps|
    ensures forall i :: 0 <= i < |ps| ==> (labels[i].Some? <==> Parent(ps, i) != -1)
    ensures forall i, id :: 0 <= i < |ps| ==> (labels[i] == Some(id) <==> PairAt(ps, env, i, id))
  {
    seq(|ps|, i requires 0 <= i < |ps| =>
      if Parent(ps, i) == -1 then None else Some(EdgeId(IdOf(ps[i], env), IdOf(ps[Parent(ps, i)], env))))
  }

  ghost predicate DistinctLabels(labels: seq<Option<string>>) {
    forall i, j :: 0 <= i < j < |labels| && labels[i].Some? ==> labels[i] != labels[j]
  }

  ghost function Labelled(labels: seq<Option<string>>): set<int> {
    set i | 0 <= i < |labels| && labels[i].Some?
  }

  ghost function LabelSet(labels: seq<Option<string>>): set<string> {
    if labels == [] then {}
    else LabelSet(labels[..|labels| - 1]) + (if labels[|labels| - 1].Some? then {labels[|labels| - 1].value} else {})
  }

  lemma {:induction false} LabelSetIs(labels: seq<Option<string>>, id: string)
    ensures id in LabelSet(labels) <==> Some(id) in labels
  {
    if labels != [] { LabelSetIs(labels[..|labels| - 1], id); }
  }

  lemma LabelledSnoc(front: seq<Option<string>>, last: Option<string>)
    ensures |Labelled(front + [last])| == |Labelled(front)| + (if last.Some? then 1 else 0)
  {
    assert Labelled(front + [last]) == Labelled(front) + (if last.Some? then {|front|} else {});
  }

  lemma {:induction false} LabelCount(labels: seq<Option<string>>)
    requires DistinctLabels(labels)
    ensures |LabelSet(labels)| == |Labelled(labels)|
  {
    if labels != [] {
      var front, last := labels[..|labels| - 1], labels[|labels| - 1];
      LabelCount(front);
      LabelledSnoc(front, last);
      assert labels == front + [last];
      if last.Some? { LabelSetIs(front, last.value); }
    }
  }

  /** Different processes have different edges. */
  lemma PairsDiffer(ps: seq<Process>, env: Env, i: nat, j: nat, id: string)
    requires Sound(env) && AllInferrable(ps, env) && DistinctPids(ps) && i < |ps| && j < |ps|
    requires PairAt(ps, env, i, id) && PairAt(ps, env, j, id)
    ensures i == j
  {
    SessionIdShape(SourceOf(ps[i], env), ps[i].pid);
    SessionIdShape(SourceOf(ps[j], env), ps[j].pid);
    EdgeIdInjective(IdOf(ps[i], env), IdOf(ps[Parent(ps, i)], env), IdOf(ps[j], env), IdOf(ps[Parent(ps, j)], env));
    IdsDiffer(ps, env, i, j);
  }

  lemma EdgeLabelsDiffer(ps: seq<Process>, env: Env)
    requires Sound(env) && AllInferrable(ps, env) && DistinctPids(ps)
    ensures DistinctLabels(EdgeLabels(ps, env))
  {
    var labels := EdgeLabels(ps, env);
    forall i, j | 0 <= i < j < |labels| && labels[i].Some? ensures labels[i] != labels[j] {
      if labels[i] == labels[j] {
        assert PairAt(ps, env, i, labels[i].value) && PairAt(ps, env, j, labels[i].value);
        PairsDiffer(ps, env, i, j, labels[i].value);
      }
    }
  }

  /** With distinct pids there are as many process edges as claimed processes with a claimed parent. */
  lemma EdgeCount(sessions: map<string, Session>, edges: map<string, Edge>, scan: Scan)
    requires Sound(scan.env) && DistinctPids(scan.processes)
    ensures |ProcessEdgeIds(SettleEdges(sessions, edges, scan))| == |ChildPositions(Claimed(sessions, scan))|
  {
    var ps := Claimed(sessions, scan);
    var labels := EdgeLabels(ps, scan.env);
    ClaimPids(sessions, scan.processes, scan.env);
    forall id ensures id in ProcessEdgeIds(SettleEdges(sessions, edges, scan)) <==> id in LabelSet(labels) {
      EdgesArePairs(sessions, edges, scan, id);
      LabelSetIs(labels, id);
      PairIsLabel(ps, scan.env, id);
    }
    assert ProcessEdgeIds(SettleEdges(sessions, edges, scan)) == LabelSet(labels);
    assert Labelled(labels) == ChildPositions(ps);
    EdgeLabelsDiffer(ps, scan.env);
    LabelCount(labels);
  }

  lemma PairIsLabel(ps: seq<Process>, env: Env, id: string)
    requires AllInferrable(ps, env)
    ensures PairId(ps, env, id) <==> Some(id) in EdgeLabels(ps, env)
  {
    var labels := EdgeLabels(ps, env);
    if PairId(ps, env, id) {
      var i: nat :| i < |ps| && PairAt(ps, env, i, id);
      assert labels[i] == Some(id);
    }
    if Some(id) in labels {
      var i :| 0 <= i < |labels| && labels[i] == Some(id);
      assert PairAt(ps, env, i, id);
    }
  }

  // ----- Lineage -----

  /** Lineage(t) contains the session of process `i` exactly when the position test selects it. */
  lemma LineageIsSelection(sessions: map<string, Session>, scan: Scan, t: nat, i: nat)
    requires Sound(scan.env) && DistinctPids(scan.processes)
    requires t < |Claimed(sessions, scan)| && i < |Claimed(sessions, scan)|
    ensures var ps := Claimed(sessions, scan);
            IdOf(ps[i], scan.env) in LineageIds(SettleSessions(sessions, scan), IdOf(ps[t], scan.env))
            <==> Selected(ps, t, i)
  {
    var ps := Claimed(sessions, scan);
    ClaimPids(sessions, scan.processes, scan.env);
    RootsExact(sessions, scan, i);
    IdsDiffer(ps, scan.env, i, t);
    IdsDiffer(ps, scan.env, t, t);
    IdsDiffer(ps, scan.env, RootOf(ps, i), t);
    if Parent(ps, i) != -1 { IdsDiffer(ps, scan.env, Parent(ps, i), t); }
  }

  /** Lineage(t) contains the edge of process `i` exactly when it contains the process or its parent. */
  lemma LineageOfEdge(sessions: map<string, Session>, scan: Scan, t: nat, i: nat, e: Edge)
    requires Sound(scan.env) && DistinctPids(scan.processes)
    requires t < |Claimed(sessions, scan)| && i < |Claimed(sessions, scan)| && Parent(Claimed(sessions, scan), i) != -1
    requires var ps := Claimed(sessions, scan);
             e.from == IdOf(ps[i], scan.env) && e.to == IdOf(ps[Parent(ps, i)], scan.env)
    ensures var ps := Claimed(sessions, scan);
            EdgeInLineage(SettleSessions(sessions, scan), IdOf(ps[t], scan.env), e)
            <==> Selected(ps, t, i) || Selected(ps, t, Parent(ps, i))
  {
    var ps := Claimed(sessions, scan);
    LineageIsSelection(sessions, scan, t, i);
    LineageIsSelection(sessions, scan, t, Parent(ps, i));
    SessionIdShape(SourceOf(ps[t], scan.env), ps[t].pid);
  }

  /** The inferred part of Lineage(t) is the session of `t` and those of all its descendants. */
  ghost predicate ShowsSubtree(sessions: map<string, Session>, scan: Scan, t: nat)
    requires t < |Claimed(sessions, scan)|
  {
    var ps := Claimed(sessions, scan);
    forall i :: 0 <= i < |ps| ==>
      (IdOf(ps[i], scan.env) in LineageIds(SettleSessions(sessions, scan), IdOf(ps[t], scan.env))
       <==> Reaches(ps, i, t))
  }

  lemma ShowsIsSelects(sessions: map<string, Session>, scan: Scan, t: nat)
    requires Sound(scan.env) && DistinctPids(scan.processes) && t < |Claimed(sessions, scan)|
    ensures ShowsSubtree(sessions, scan, t) <==> SelectsDescendants(Claimed(sessions, scan), t)
  {
    var ps := Claimed(sessions, scan);
    forall i | 0 <= i < |ps|
      ensures IdOf(ps[i], scan.env) in LineageIds(SettleSessions(sessions, scan), IdOf(ps[t], scan.env))
              <==> Selected(ps, t, i)
    {
      LineageIsSelection(sessions, scan, t, i);
    }
  }

  /**
   * Parent-first lists, and more generally lists whose late parents are top: Lineage of a top process
   * is its whole tree.
   */
  lemma LineageOfTop(sessions: map<string, Session>, scan: Scan, t: nat)
    requires Sound(scan.env) && DistinctPids(scan.processes) && t < |Claimed(sessions, scan)|
    requires LateParentsAreTop(Claimed(sessions, scan)) && Top(Claimed(sessions, scan), t)
    ensures ShowsSubtree(sessions, scan, t)
  {
    TopSelectsSubtree(Claimed(sessions, scan), t);
    ShowsIsSelects(sessions, scan, t);
  }

  /** Whatever the list, an inferred session that Lineage shows belongs to the subtree. */
  lemma LineageOnlyDescendants(sessions: map<string, Session>, scan: Scan, t: nat, i: nat)
    requires Sound(scan.env) && DistinctPids(scan.processes)
    requires t < |Claimed(sessions, scan)| && i < |Claimed(sessions, scan)|
    requires var ps := Claimed(sessions, scan);
             IdOf(ps[i], scan.env) in LineageIds(SettleSessions(sessions, scan), IdOf(ps[t], scan.env))
    ensures Reaches(Claimed(sessions, scan), i, t)
  {
    LineageIsSelection(sessions, scan, t, i);
    SelectedIsDescendant(Claimed(sessions, scan), t, i);
  }

  /**
   * For acyclic lists and any one process, Lineage shows its whole subtree exactly when every
   * proper descendant precedes its own children and, unless the process is top, its children
   * that have children precede it.
   */
  lemma LineageSubtreeIff(sessions: map<string, Session>, scan: Scan, t: nat)
    requires Sound(scan.env) && DistinctPids(scan.processes) && Acyclic(Claimed(sessions, scan))
    requires t < |Claimed(sessions, scan)|
    ensures ShowsSubtree(sessions, scan, t) <==>
            EarlyBelow(Claimed(sessions, scan), t) && LateChildren(Claimed(sessions, scan), t)
  {
    ShowsIsSelects(sessions, scan, t);
    SubtreeIff(Claimed(sessions, scan), t);
  }

  /** The inferred part of Lineage(t) is the session of `t` and those of its direct children. */
  ghost predicate ShowsChildrenOnly(sessions: map<string, Session>, scan: Scan, t: nat)
    requires t < |Claimed(sessions, scan)|
  {
    var ps := Claimed(sessions, scan);
    forall i :: 0 <= i < |ps| ==>
      (IdOf(ps[i], scan.env) in LineageIds(SettleSessions(sessions, scan), IdOf(ps[t], scan.env))
       <==> i == t || Parent(ps, i) == t)
  }

  /** For acyclic lists, a process that is not top shows only itself and its children exactly when it is shallow. */
  lemma LineageChildrenIff(sessions: map<string, Session>, scan: Scan, t: nat)
    requires Sound(scan.env) && DistinctPids(scan.processes) && Acyclic(Claimed(sessions, scan))
    requires t < |Claimed(sessions, scan)| && !Top(Claimed(sessions, scan), t)
    ensures ShowsChildrenOnly(sessions, scan, t) <==> Shallow(Claimed(sessions, scan), t)
  {
    var ps := Claimed(sessions, scan);
    ChildrenOnlyIff(ps, t);
    forall i | 0 <= i < |ps|
      ensures IdOf(ps[i], scan.env) in LineageIds(SettleSessions(sessions, scan), IdOf(ps[t], scan.env))
              <==> Selected(ps, t, i)
    {
      LineageIsSelection(sessions, scan, t, i);
    }
  }

  /** A parent-first process list: a top process shows its whole tree, any other itself and its children. */
  lemma LineageParentFirst(sessions: map<string, Session>, scan: Scan, t: nat)
    requires Sound(scan.env) && DistinctPids(scan.processes) && ParentFirst(scan.processes)
    requires t < |Claimed(sessions, scan)|
    ensures if Top(Claimed(sessions, scan), t)
            then ShowsSubtree(sessions, scan, t)
            else ShowsChildrenOnly(sessions, scan, t)
  {
    ClaimedInherits(sessions, scan);
    RootsAreTopIff(Claimed(sessions, scan));
    LateParentsAcyclic(Claimed(sessions, scan));
    if Top(Claimed(sessions, scan), t) {
      LineageOfTop(sessions, scan, t);
    } else {
      LineageChildrenIff(sessions, scan, t);
    }
  }

  /** For acyclic lists, Lineage shows every top process's whole tree exactly when late parents are top. */
  lemma LineageExactIff(sessions: map<string, Session>, scan: Scan)
    requires Sound(scan.env) && DistinctPids(scan.processes) && Acyclic(Claimed(sessions, scan))
    ensures (forall t: nat :: t < |Claimed(sessions, scan)| && Top(Claimed(sessions, scan), t) ==>
              ShowsSubtree(sessions, scan, t))
            <==> LateParentsAreTop(Claimed(sessions, scan))
  {
    var ps := Claimed(sessions, scan);
    SubtreesIff(ps);
    forall t: nat | t < |ps| && Top(ps, t) ensures ShowsSubtree(sessions, scan, t) <==> SelectsDescendants(ps, t) {
      ShowsIsSelects(sessions, scan, t);
    }
  }

  /** Every inferred session is that of some claimed process, so the statements above cover them all. */
  lemma InferredArePositions(sessions: map<string, Session>, scan: Scan, id: string)
    requires id in InferredIds(SettleSessions(sessions, scan))
    ensures exists i :: 0 <= i < |Claimed(sessions, scan)| && IdOf(Claimed(sessions, scan)[i], scan.env) == id
  {
    var ps := Claimed(sessions, scan);
    LinkedKeys(sessions, scan);
    RecordsKeys(sessions, ps, scan.env, scan.now, id);
    var p :| p in ps && Inferrable(p, scan.env) && IdOf(p, scan.env) == id;
    var i :| 0 <= i < |ps| && ps[i] == p;
  }

  // ----- Lineage falls short on two process tables -----

  lemma AgentProcessInferred(host: Host, pid: int, ppid: int)
    ensures var p := AgentProcess(pid, ppid);
            Inferrable(p, EnvOf(host)) && SourceOf(p, EnvOf(host)) == "codex" && Resolve(p, EnvOf(host)) == p
  {
    var p := AgentProcess(pid, ppid);
    assert ToLower("codex") == "codex";
    AgentPathRecognised(p, host, "", "codex");
  }

  lemma ClaimOneMore(front: seq<Process>, p: Process, env: Env)
    requires Claim(map[], front, env) == front && Inferrable(p, env) && Resolve(p, env) == p
    ensures Claim(map[], front + [p], env) == front + [p]
  {
    ClaimSnoc(map[], front, p, env);
  }

  lemma {:induction false} ClaimAll(processes: seq<Process>, env: Env)
    requires forall p :: p in processes ==> Inferrable(p, env) && Resolve(p, env) == p
    ensures Claim(map[], processes, env) == processes
  {
    if processes != [] {
      var front, p := processes[..|processes| - 1], processes[|processes| - 1];
      assert processes == front + [p] && p in processes;
      ClaimAll(front, env);
      ClaimOneMore(front, p, env);
    }
  }

  /** On an empty store, a table of agent processes is claimed as it is. */
  lemma AgentTableClaimed(processes: seq<Process>, host: Host, now: Instant)
    requires forall p :: p in processes ==> p == AgentProcess(p.pid, p.ppid)
    ensures Claimed(map[], Scan(processes, EnvOf(host), now)) == processes
    ensures Sound(EnvOf(host))
  {
    EnvOfIsSound(host);
    forall p | p in processes ensures Inferrable(p, EnvOf(host)) && Resolve(p, EnvOf(host)) == p {
      AgentProcessInferred(host, p.pid, p.ppid);
    }
    ClaimAll(processes, EnvOf(host));
  }

  /** Listed child first, a chain of three: the top process's lineage misses its grandchild. */
  lemma ChildFirstLineage(host: Host, now: Instant)
    ensures var scan := Scan(CHILD_FIRST, EnvOf(host), now);
            && Claimed(map[], scan) == CHILD_FIRST && Top(CHILD_FIRST, 2) && Reaches(CHILD_FIRST, 0, 2)
            && !ShowsSubtree(map[], scan, 2)
  {
    var scan := Scan(CHILD_FIRST, EnvOf(host), now);
    AgentTableClaimed(CHILD_FIRST, host, now);
    ChildFirstMissesGrandchild();
    LineageIsSelection(map[], scan, 2, 0);
  }

  lemma LateInnerClaimed(host: Host, now: Instant)
    ensures Claimed(map[], Scan(LATE_INNER, EnvOf(host), now)) == LATE_INNER
    ensures Sound(EnvOf(host)) && DistinctPids(LATE_INNER)
  {
    AgentTableClaimed(LATE_INNER, host, now);
  }

  /** Listed after its child and grandchild, an inner process's lineage holds the grandchild too. */
  lemma LateInnerLineage(host: Host, now: Instant)
    ensures var scan := Scan(LATE_INNER, EnvOf(host), now);
            && Claimed(map[], scan) == LATE_INNER && !Top(LATE_INNER, 2) && Parent(LATE_INNER, 1) != 2
            && !ShowsChildrenOnly(map[], scan, 2)
  {
    var scan := Scan(LATE_INNER, EnvOf(host), now);
    LateInnerClaimed(host, now);
    LateInnerShowsGrandchild();
    LineageIsSelection(map[], scan, 2, 1);
  }

  /** The edge of process `i` to its parent, as the reconciler writes it. */
  ghost predicate IsEdgeOf(e: Edge, ps: seq<Process>, env: Env, i: nat)
    requires AllInferrable(ps, env) && i < |ps|
  {
    Parent(ps, i) != -1
    && e.id == "process:spawned_by:" + e.from + "->" + e.to
    && e.from == IdOf(ps[i], env) && e.to == IdOf(ps[Parent(ps, i)], env)
  }

  lemma AnsweredSessions(sessions: map<string, Session>, scan: Scan, t: nat, answer: seq<Session>)
    requires Sound(scan.env) && DistinctPids(scan.processes) && t < |Claimed(sessions, scan)|
    requires var root := IdOf(Claimed(sessions, scan)[t], scan.env);
             forall id :: (exists s | s in answer :: s.id == id)
                          <==> id in LineageIds(SettleSessions(sessions, scan), root)
    ensures var ps := Claimed(sessions, scan);
            forall i :: 0 <= i < |ps| ==>
              ((exists s :: s in answer && s.id == IdOf(ps[i], scan.env)) <==> Selected(ps, t, i))
  {
    var ps := Claimed(sessions, scan);
    forall i | 0 <= i < |ps|
      ensures (exists s :: s in answer && s.id == IdOf(ps[i], scan.env)) <==> Selected(ps, t, i)
    {
      LineageIsSelection(sessions, scan, t, i);
    }
  }

  lemma AnsweredEdge(sessions: map<string, Session>, edges: map<string, Edge>, scan: Scan, t: nat, i: nat,
                     answer: seq<Edge>)
    requires Sound(scan.env) && DistinctPids(scan.processes)
    requires t < |Claimed(sessions, scan)| && i < |Claimed(sessions, scan)| && Parent(Claimed(sessions, scan), i) != -1
    requires var after, stored := SettleSessions(sessions, scan), SettleEdges(sessions, edges, scan);
             var root := IdOf(Claimed(sessions, scan)[t], scan.env);
             ListsEdges(answer, stored, stored.Keys, e => EdgeInLineage(after, root, e))
    ensures var ps := Claimed(sessions, scan);
            (exists e :: e in answer && IsEdgeOf(e, ps, scan.env, i))
            <==> Selected(ps, t, i) || Selected(ps, t, Parent(ps, i))
  {
    var ps := Claimed(sessions, scan);
    var child, parent := IdOf(ps[i], scan.env), IdOf(ps[Parent(ps, i)], scan.env);
    var id := "process:spawned_by:" + child + "->" + parent;
    EdgeRecorded(sessions, edges, scan, i);
    var e := SettleEdges(sessions, edges, scan)[id];
    assert IsEdgeOf(e, ps, scan.env, i);
    LineageOfEdge(sessions, scan, t, i, e);
    assert e in answer <==> multiset(answer)[e] > 0;
    forall d: Edge | d in answer && IsEdgeOf(d, ps, scan.env, i) ensures d == e {
      assert multiset(answer)[d] > 0;
    }
  }

  /**
   * Reconcile, then ask: the answer holds a claimed process's session exactly when the position
   * test selects it, and its edge exactly when the test selects it or its parent.
   */
  method ReconcileThenLineage(handler: Handler, processes: seq<Process>, host: Host, now: Instant, clock: Instant,
                              root: string, ghost t: nat)
    returns (lineage: Lineage)
    requires handler.store.Valid() && DistinctPids(processes)
    requires var ps := Claimed(handler.store.sessions, Scan(processes, EnvOf(host), now));
             t < |ps| && root == IdOf(ps[t], EnvOf(host))
    modifies handler.store
    ensures handler.store.Valid()
    ensures var ps := Claimed(old(handler.store.sessions), Scan(processes, EnvOf(host), now));
            forall i :: 0 <= i < |ps| ==>
              ((exists s :: s in lineage.sessions && s.id == IdOf(ps[i], EnvOf(host))) <==> Selected(ps, t, i))
    ensures var ps := Claimed(old(handler.store.sessions), Scan(processes, EnvOf(host), now));
            forall i :: 0 <= i < |ps| && Parent(ps, i) != -1 ==>
              ((exists e :: e in lineage.edges && IsEdgeOf(e, ps, EnvOf(host), i))
               <==> Selected(ps, t, i) || Selected(ps, t, Parent(ps, i)))
  {
    ghost var sessions, edges := handler.store.sessions, handler.store.edges;
    ghost var scan := Scan(processes, EnvOf(host), now);
    ghost var ps := Claimed(sessions, scan);
    EnvOfIsSound(host);
    var _ := handler.Reconcile(Some(processes), host, now, clock);
    lineage := handler.store.LineageOf(root);
    handler.store.LineageIdsAre(lineage.sessions, root);
    AnsweredSessions(sessions, scan, t, lineage.sessions);
    forall i | 0 <= i < |ps| && Parent(ps, i) != -1
      ensures (exists e :: e in lineage.edges && IsEdgeOf(e, ps, EnvOf(host), i))
              <==> Selected(ps, t, i) || Selected(ps, t, Parent(ps, i))
    {
      AnsweredEdge(sessions, edges, scan, t, i, lineage.edges);
    }
  }

  /**
   * Reconcile, then list by source: the listing holds the session of a process that no native
   * session owns exactly when inference gives the process that source.
   */
  method ReconcileThenList(handler: Handler, processes: seq<Process>, host: Host, now: Instant, clock: Instant,
                           all: bool, source: string)
    returns (listed: seq<Session>)
    requires handler.store.Valid() && DistinctPids(processes) && source != ""
    modifies handler.store
    ensures handler.store.Valid() && MostUrgentFirst(listed)
    ensures forall p :: p in processes && Claims(old(handler.store.sessions), p, EnvOf(host)) ==>
              ((exists s :: s in listed && s.id == IdOf(p, EnvOf(host)))
               <==> InferSource(p.command, p.args, host) == Some(source))
  {
    ghost var sessions := handler.store.sessions;
    var _ := handler.Reconcile(Some(processes), host, now, clock);
    handler.store.RecordsKeyed();
    listed := handler.store.ListSessions(SessionFilter(all, [], "", source));
    ghost var after := handler.store.sessions;
    forall p | p in processes && Claims(sessions, p, EnvOf(host))
      ensures (exists s :: s in listed && s.id == IdOf(p, EnvOf(host)))
              <==> InferSource(p.command, p.args, host) == Some(source)
    {
      SourceFilterFinds(sessions, processes, host, now, p, all, source);
      ListedById(listed, after, SessionFilter(all, [], "", source), IdOf(p, EnvOf(host)));
    }
  }

  lemma ListedById(listed: seq<Session>, sessions: map<string, Session>, f: SessionFilter, id: string)
    requires ListsSessions(listed, sessions, sessions.Keys, f) && id in sessions && sessions[id].id == id
    ensures (exists s :: s in listed && s.id == id) <==> Matches(f, sessions[id])
  {
    var s := sessions[id];
    assert s in listed <==> multiset(listed)[s] > 0;
    forall d: Session | d in listed && d.id == id ensures d == s {
      assert multiset(listed)[d] > 0;
    }
  }

  // ----- StartedAt and LastActivityAt over many scans -----

  datatype Activity = Reconciled(scan: Scan) | Native(op: Op)

  /** The sessions after one activity. */
  ghost function After(sessions: map<string, Session>, a: Activity): map<string, Session> {
    match a
    case Reconciled(scan) => SettleSessions(sessions, scan)
    case Native(op) => Apply(Snapshot(sessions, map[], map[], []), op).sessions
  }

  ghost function AfterAll(sessions: map<string, Session>, acts: seq<Activity>): map<string, Session> {
    if acts == [] then sessions else After(AfterAll(sessions, acts[..|acts| - 1]), acts[|acts| - 1])
  }

  predicate Touches(a: Activity, id: string) {
    a.Native? && ((a.op.PutSession? && a.op.session.id == id) || (a.op.DropSession? && a.op.sessionId == id))
  }

  /** The scan shows a process with this identifier. */
  ghost predicate Present(a: Activity, id: string) {
    a.Reconciled? && Names(a.scan.processes, a.scan.env, id)
  }

  lemma NativeLeaves(sessions: map<string, Session>, op: Op, id: string)
    requires !Touches(Native(op), id)
    ensures id in After(sessions, Native(op)) <==> id in sessions
    ensures id in sessions ==> After(sessions, Native(op))[id] == sessions[id]
  {
  }

  /** One scan, for an identifier no native session owns. */
  lemma ScanDecides(sessions: map<string, Session>, scan: Scan, id: string)
    requires !NativelyOwned(sessions, id)
    ensures var after := SettleSessions(sessions, scan);
            && (id in after <==> Present(Reconciled(scan), id))
            && !NativelyOwned(after, id)
            && (id in after ==>
              after[id].startedAt == StartOf(sessions, id, scan.now) && after[id].lastActivityAt == scan.now)
  {
    LinkedShape(sessions, scan);
    RecordsKeys(sessions, Claimed(sessions, scan), scan.env, scan.now, id);
    ClaimedIds(sessions, scan.processes, scan.env, id);
  }

  /** The last scan among the activities, if any, does not show `id`. */
  ghost predicate LastScanLacks(acts: seq<Activity>, id: string) {
    acts == [] || (if acts[|acts| - 1].Reconciled? then !Present(acts[|acts| - 1], id)
                   else LastScanLacks(acts[..|acts| - 1], id))
  }

  ghost predicate Untouched(acts: seq<Activity>, id: string) {
    forall j :: 0 <= j < |acts| ==> !Touches(acts[j], id)
  }

  lemma {:induction false} PresenceFollowsScans(init: map<string, Session>, acts: seq<Activity>, id: string)
    requires id !in init && Untouched(acts, id)
    ensures !NativelyOwned(AfterAll(init, acts), id)
    ensures LastScanLacks(acts, id) <==> id !in AfterAll(init, acts)
  {
    if acts != [] {
      var front, a := acts[..|acts| - 1], acts[|acts| - 1];
      UntouchedFront(acts, id);
      PresenceFollowsScans(init, front, id);
      match a
      case Reconciled(scan) => ScanDecides(AfterAll(init, front), scan, id);
      case Native(op) => NativeLeaves(AfterAll(init, front), op, id);
    }
  }

  /** Activity `k` is the scan that began the run of presence still unbroken at the end. */
  ghost predicate BeginsRun(acts: seq<Activity>, id: string, k: nat) {
    && k < |acts| && Present(acts[k], id) && LastScanLacks(acts[..k], id)
    && forall j :: k < j < |acts| && acts[j].Reconciled? ==> Present(acts[j], id)
  }

  ghost function LastScanTime(acts: seq<Activity>): Time {
    if acts == [] then ZERO_TIME
    else if acts[|acts| - 1].Reconciled? then acts[|acts| - 1].scan.now
    else LastScanTime(acts[..|acts| - 1])
  }

  /** The first scan of a run of presence stamps the record. */
  lemma RunStarts(init: map<string, Session>, front: seq<Activity>, scan: Scan, id: string)
    requires id !in init && Untouched(front, id) && LastScanLacks(front, id) && Present(Reconciled(scan), id)
    ensures var after := SettleSessions(AfterAll(init, front), scan);
            id in after && after[id].startedAt == scan.now && after[id].lastActivityAt == scan.now
  {
    PresenceFollowsScans(init, front, id);
    ScanDecides(AfterAll(init, front), scan, id);
  }

  /** What a session that has been present since `began` shows. */
  ghost predicate Shows(sessions: map<string, Session>, id: string, began: Time, active: Time) {
    id in sessions && sessions[id].startedAt == began && sessions[id].lastActivityAt == active
  }

  /**
   * Every scan rebuilds the record, yet an inferred session's StartedAt is the clock of the
   * scan that began its current unbroken run of presence, and LastActivityAt that of the last.
   */
  lemma {:induction false} StartedAtSurvives(init: map<string, Session>, acts: seq<Activity>, id: string, k: nat)
    requires id !in init && Untouched(acts, id) && BeginsRun(acts, id, k)
    ensures Shows(AfterAll(init, acts), id, acts[k].scan.now, LastScanTime(acts))
  {
    var n := |acts| - 1;
    var front := acts[..n];
    UntouchedFront(acts, id);
    if k == n {
      RunStarts(init, front, acts[n].scan, id);
    } else {
      RunContinues(acts, id, k);
      StartedAtSurvives(init, front, id, k);
      PresenceFollowsScans(init, front, id);
      ActivityKeepsStart(AfterAll(init, front), acts[n], id);
    }
  }

  lemma UntouchedFront(acts: seq<Activity>, id: string)
    requires acts != [] && Untouched(acts, id)
    ensures Untouched(acts[..|acts| - 1], id) && !Touches(acts[|acts| - 1], id)
  {
  }

  lemma RunContinues(acts: seq<Activity>, id: string, k: nat)
    requires BeginsRun(acts, id, k) && k < |acts| - 1
    ensures BeginsRun(acts[..|acts| - 1], id, k)
  {
    assert acts[..|acts| - 1][..k] == acts[..k];
  }

  lemma ActivityKeepsStart(sessions: map<string, Session>, a: Activity, id: string)
    requires id in sessions && !NativelyOwned(sessions, id) && !Touches(a, id) && (a.Reconciled? ==> Present(a, id))
    ensures id in After(sessions, a) && After(sessions, a)[id].startedAt == sessions[id].startedAt
    ensures After(sessions, a)[id].lastActivityAt == if a.Reconciled? then a.scan.now else sessions[id].lastActivityAt
  {
    match a
    case Reconciled(scan) => ScanDecides(sessions, scan, id);
    case Native(op) => NativeLeaves(sessions, op, id);
  }

  /** Every inferred session present at the end has such a beginning. */
  lemma {:induction false} RunHasBeginning(init: map<string, Session>, acts: seq<Activity>, id: string) returns (k: nat)
    requires id !in init && Untouched(acts, id) && id in AfterAll(init, acts)
    ensures BeginsRun(acts, id, k)
  {
    PresenceFollowsScans(init, acts, id);
    k := FindRun(acts, id);
  }

  lemma {:induction false} FindRun(acts: seq<Activity>, id: string) returns (k: nat)
    requires !LastScanLacks(acts, id)
    ensures BeginsRun(acts, id, k)
  {
    var n := |acts| - 1;
    if acts[n].Reconciled? && LastScanLacks(acts[..n], id) {
      k := n;
    } else {
      k := FindRun(acts[..n], id);
      assert acts[..n][..k] == acts[..k];
      assert forall j :: 0 <= j < n ==> acts[..n][j] == acts[j];
    }
  }
}
