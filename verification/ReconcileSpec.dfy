/**
 * What one reconciliation makes of the store, as a function of the store's native part and
 * the process table: internal/api/handler.go:229-311 in closed form.
 */
module ReconcileSpec {
  import opened Model
  import opened Text
  import opened Inference

  /** One call's inputs: the process list, the lookups, and the clock. */
  datatype Scan = Scan(processes: seq<Process>, env: Env, now: Instant)

  // ----- One process -----

  predicate Inferrable(p: Process, env: Env) {
    env.sourceOf(p.command, p.args).Some?
  }

  function SourceOf(p: Process, env: Env): string
    requires Inferrable(p, env)
  {
    env.sourceOf(p.command, p.args).value
  }

  function IdOf(p: Process, env: Env): string
    requires Inferrable(p, env)
  {
    SessionId(SourceOf(p, env), p.pid)
  }

  /** Fill in a missing working directory. */
  function Resolve(p: Process, env: Env): Process {
    if p.cwd == "" && env.cwdOf(p.pid).Some? then p.(cwd := env.cwdOf(p.pid).value) else p
  }

  /** The inferred session, with its working directory looked up. */
  function Found(p: Process, env: Env, now: Instant): Session
    requires Inferrable(p, env)
  {
    var s := SessionFor(p, SourceOf(p, env), now);
    if s.cwd == "" && env.cwdOf(p.pid).Some? then
      var cwd := env.cwdOf(p.pid).value;
      s.(cwd := cwd, workspaceRoots := [cwd], workspaceIds := ["workspace:" + cwd])
    else s
  }

  /** Looking up the directory first makes no difference. */
  lemma FoundResolved(p: Process, env: Env, now: Instant)
    requires Inferrable(p, env)
    ensures Inferrable(Resolve(p, env), env) && IdOf(Resolve(p, env), env) == IdOf(p, env)
    ensures Found(Resolve(p, env), env, now) == Found(p, env, now)
  {
  }

  /** Where a process runs: as listed, or else as looked up. A lookup may answer with a blank. */
  function Directory(p: Process, env: Env): Option<string> {
    if p.cwd != "" then Some(p.cwd) else env.cwdOf(p.pid)
  }

  /** The session of process `p`, agent `source`, running in `place`, field by field; links aside. */
  ghost predicate Describes(s: Session, p: Process, source: string, place: Option<string>) {
    && s.id == source + ":process:" + Itoa(p.pid)
    && s.kind == "session" && s.source == source && s.adapter == "" && s.confidence == "low"
    && s.status == "working" && s.attention == "none" && s.endedAt == None
    && s.title == source && s.summary == "detected running process" && s.statusDetail == "process active: " + source
    && (place.None? ==> s.cwd == "" && s.workspaceRoots == [] && s.workspaceIds == [])
    && (place.Some? ==> s.cwd == place.value && s.workspaceRoots == [s.cwd] && s.workspaceIds == ["workspace:" + s.cwd])
    && s.runtimeIds == [p.id]
    && s.process == Some(ProcessMeta(p.pid, p.ppid, p.command, p.args, true))
  }

  // ----- Which processes the reconciler may claim -----

  predicate NativelyOwned(sessions: map<string, Session>, id: string) {
    id in sessions && !IsInferred(sessions[id])
  }

  predicate Claims(sessions: map<string, Session>, p: Process, env: Env) {
    Inferrable(p, env) && !NativelyOwned(sessions, IdOf(p, env))
  }

  /** The inferrable processes whose identifier no native session owns, in list order. */
  function Claim(sessions: map<string, Session>, processes: seq<Process>, env: Env): (ps: seq<Process>)
    ensures forall p :: p in ps ==> Claims(sessions, p, env)
  {
    if processes == [] then []
    else
      var front := Claim(sessions, processes[..|processes| - 1], env);
      var p := processes[|processes| - 1];
      if Claims(sessions, p, env) then front + [Resolve(p, env)] else front
  }

  lemma ClaimSnoc(sessions: map<string, Session>, processes: seq<Process>, p: Process, env: Env)
    ensures Claim(sessions, processes + [p], env)
            == Claim(sessions, processes, env) + (if Claims(sessions, p, env) then [Resolve(p, env)] else [])
  {
    assert (processes + [p])[..|processes|] == processes;
  }

  // ----- Phase 1: the records -----

  /** When the current run of presence began: the record already there knows. */
  function StartOf(sessions: map<string, Session>, id: string, now: Instant): Time {
    if id in sessions then sessions[id].startedAt else now
  }

  function Record(base: map<string, Session>, p: Process, env: Env, now: Instant): Session
    requires Inferrable(p, env)
  {
    Found(p, env, now).(startedAt := StartOf(base, IdOf(p, env), now), attention := ATTENTION_NONE)
  }

  lemma RecordDescribes(base: map<string, Session>, p: Process, env: Env, now: Instant)
    requires Inferrable(p, env)
    ensures Describes(Record(base, p, env, now), p, SourceOf(p, env), Directory(p, env))
    ensures Describes(Record(base, Resolve(p, env), env, now), p, SourceOf(p, env), Directory(p, env))
  {
  }

  ghost predicate AllInferrable(ps: seq<Process>, env: Env) {
    forall p :: p in ps ==> Inferrable(p, env)
  }

  ghost function Records(base: map<string, Session>, ps: seq<Process>, env: Env, now: Instant): map<string, Session>
    requires AllInferrable(ps, env)
  {
    if ps == [] then map[]
    else
      var p := ps[|ps| - 1];
      Records(base, ps[..|ps| - 1], env, now)[IdOf(p, env) := Record(base, p, env, now)]
  }

  lemma RecordsSnoc(base: map<string, Session>, ps: seq<Process>, p: Process, env: Env, now: Instant)
    requires AllInferrable(ps, env) && Inferrable(p, env)
    ensures AllInferrable(ps + [p], env)
    ensures Records(base, ps + [p], env, now) == Records(base, ps, env, now)[IdOf(p, env) := Record(base, p, env, now)]
  {
    assert (ps + [p])[..|ps|] == ps;
  }

  /** A freshly inferred record: working, its own root, no parent. */
  ghost predicate Fresh(s: Session, id: string, started: Time, now: Instant) {
    && s.id == id && IsInferred(s) && s.status == STATUS_WORKING
    && s.parentId == "" && s.rootId == id
    && s.startedAt == started && s.lastActivityAt == now
  }

  lemma RecordIsFresh(base: map<string, Session>, p: Process, env: Env, now: Instant)
    requires Inferrable(p, env)
    ensures Fresh(Record(base, p, env, now), IdOf(p, env), StartOf(base, IdOf(p, env), now), now)
  {
  }

  /** Some process of the list has this session identifier. */
  ghost predicate Names(ps: seq<Process>, env: Env, id: string) {
    exists p :: p in ps && Inferrable(p, env) && IdOf(p, env) == id
  }

  lemma NamesSnoc(ps: seq<Process>, p: Process, env: Env, id: string)
    requires Inferrable(p, env)
    ensures Names(ps + [p], env, id) <==> Names(ps, env, id) || IdOf(p, env) == id
  {
    assert p in ps + [p];
    assert forall q :: q in ps + [p] <==> q in ps || q == p;
  }

  lemma {:induction false} RecordsKeys(base: map<string, Session>, ps: seq<Process>, env: Env, now: Instant, id: string)
    requires AllInferrable(ps, env)
    ensures id in Records(base, ps, env, now) <==> Names(ps, env, id)
  {
    if ps != [] {
      var front, p := ps[..|ps| - 1], ps[|ps| - 1];
      RecordsKeys(base, front, env, now, id);
      NamesSnoc(front, p, env, id);
      assert ps == front + [p];
    }
  }

  lemma {:induction false} RecordsFresh(base: map<string, Session>, ps: seq<Process>, env: Env, now: Instant,
                                        id: string)
    requires AllInferrable(ps, env) && id in Records(base, ps, env, now)
    ensures Fresh(Records(base, ps, env, now)[id], id, StartOf(base, id, now), now)
  {
    var front, p := ps[..|ps| - 1], ps[|ps| - 1];
    RecordIsFresh(base, p, env, now);
    if id != IdOf(p, env) { RecordsFresh(base, front, env, now, id); }
  }

  lemma RecordsShape(base: map<string, Session>, ps: seq<Process>, env: Env, now: Instant)
    requires AllInferrable(ps, env)
    ensures forall id :: id in Records(base, ps, env, now) ==>
              Fresh(Records(base, ps, env, now)[id], id, StartOf(base, id, now), now)
    ensures forall id :: id in Records(base, ps, env, now) <==> Names(ps, env, id)
  {
    forall id | id in Records(base, ps, env, now)
      ensures Fresh(Records(base, ps, env, now)[id], id, StartOf(base, id, now), now)
    {
      RecordsFresh(base, ps, env, now, id);
    }
    forall id ensures id in Records(base, ps, env, now) <==> Names(ps, env, id) {
      RecordsKeys(base, ps, env, now, id);
    }
  }

  // ----- The pid table, the links and the edges of phase 2 -----

  ghost function PidMap(ps: seq<Process>, env: Env): map<int, string>
    requires AllInferrable(ps, env)
  {
    if ps == [] then map[]
    else PidMap(ps[..|ps| - 1], env)[ps[|ps| - 1].pid := IdOf(ps[|ps| - 1], env)]
  }

  lemma PidMapSnoc(ps: seq<Process>, p: Process, env: Env)
    requires AllInferrable(ps, env) && Inferrable(p, env)
    ensures AllInferrable(ps + [p], env)
    ensures PidMap(ps + [p], env) == PidMap(ps, env)[p.pid := IdOf(p, env)]
  {
    assert (ps + [p])[..|ps|] == ps;
  }

  lemma {:induction false} PidMapShape(ps: seq<Process>, env: Env)
    requires AllInferrable(ps, env)
    ensures forall pid :: pid in PidMap(ps, env) ==>
              exists p :: p in ps && p.pid == pid && IdOf(p, env) == PidMap(ps, env)[pid]
    ensures forall p :: p in ps ==> p.pid in PidMap(ps, env)
  {
    if ps != [] {
      PidMapShape(ps[..|ps| - 1], env);
      assert ps == ps[..|ps| - 1] + [ps[|ps| - 1]];
    }
  }

  predicate HasParent(p: Process, pids: map<int, string>) {
    p.pid in pids && p.ppid in pids
  }

  /** Point a child at its parent and at whatever root the parent has right now. */
  function LinkOne(m: map<string, Session>, p: Process, pids: map<int, string>): map<string, Session> {
    if HasParent(p, pids) && pids[p.pid] in m && pids[p.ppid] in m then
      m[pids[p.pid] := m[pids[p.pid]].(parentId := pids[p.ppid], rootId := m[pids[p.ppid]].rootId)]
    else m
  }

  function Link(m: map<string, Session>, ps: seq<Process>, pids: map<int, string>): map<string, Session> {
    if ps == [] then m else LinkOne(Link(m, ps[..|ps| - 1], pids), ps[|ps| - 1], pids)
  }

  lemma LinkSnoc(m: map<string, Session>, ps: seq<Process>, p: Process, pids: map<int, string>)
    ensures Link(m, ps + [p], pids) == LinkOne(Link(m, ps, pids), p, pids)
  {
    assert (ps + [p])[..|ps|] == ps;
  }

  ghost predicate Within(pids: map<int, string>, m: map<string, Session>) {
    forall pid :: pid in pids ==> pids[pid] in m
  }

  /** Linking touches nothing but the linked records. */
  lemma {:induction false} LinkFrame(base: map<string, Session>, m: map<string, Session>, ps: seq<Process>,
                                     pids: map<int, string>)
    requires Within(pids, m)
    ensures Link(m, ps, pids).Keys == m.Keys
    ensures Link(base + m, ps, pids) == base + Link(m, ps, pids)
  {
    if ps != [] {
      LinkFrame(base, m, ps[..|ps| - 1], pids);
    }
  }

  /** Linking only rewrites the parent and the root. */
  ghost predicate SameButLinks(a: Session, b: Session) {
    a.(parentId := b.parentId, rootId := b.rootId) == b
  }

  lemma {:induction false} LinkKeeps(m: map<string, Session>, ps: seq<Process>, pids: map<int, string>)
    ensures Link(m, ps, pids).Keys == m.Keys
    ensures forall id :: id in m ==> SameButLinks(m[id], Link(m, ps, pids)[id])
  {
    if ps != [] { LinkKeeps(m, ps[..|ps| - 1], pids); }
  }

  function SpawnEdge(child: string, parent: string, now: Instant): Edge {
    Edge(EdgeId(child, parent), child, parent, "spawned_by", "process", CONFIDENCE_LOW, now)
  }

  function SpawnOne(m: map<string, Edge>, p: Process, pids: map<int, string>, now: Instant): map<string, Edge> {
    if HasParent(p, pids) then
      m[EdgeId(pids[p.pid], pids[p.ppid]) := SpawnEdge(pids[p.pid], pids[p.ppid], now)]
    else m
  }

  function Spawns(ps: seq<Process>, pids: map<int, string>, now: Instant): map<string, Edge> {
    if ps == [] then map[] else SpawnOne(Spawns(ps[..|ps| - 1], pids, now), ps[|ps| - 1], pids, now)
  }

  lemma SpawnsSnoc(ps: seq<Process>, p: Process, pids: map<int, string>, now: Instant)
    ensures Spawns(ps + [p], pids, now) == SpawnOne(Spawns(ps, pids, now), p, pids, now)
  {
    assert (ps + [p])[..|ps|] == ps;
  }

  /** A process edge identifier names a live parent/child pair. */
  ghost predicate NamesPair(ps: seq<Process>, pids: map<int, string>, id: string) {
    exists p :: p in ps && HasParent(p, pids) && EdgeId(pids[p.pid], pids[p.ppid]) == id
  }

  lemma {:induction false} SpawnsShape(ps: seq<Process>, pids: map<int, string>, now: Instant)
    ensures forall id :: id in Spawns(ps, pids, now) <==> NamesPair(ps, pids, id)
    ensures forall id :: id in Spawns(ps, pids, now) ==> EDGE_PREFIX <= id
  {
    if ps != [] {
      SpawnsShape(ps[..|ps| - 1], pids, now);
      assert ps == ps[..|ps| - 1] + [ps[|ps| - 1]];
    }
  }

  // ----- Workspaces -----

  function WorkspaceFor(s: Session, now: Instant): Workspace {
    Workspace("workspace:" + s.cwd, "workspace", s.cwd, [s.id], s.source, CONFIDENCE_LOW, now)
  }

  function PlaceOne(m: map<string, Workspace>, p: Process, env: Env, now: Instant): map<string, Workspace>
    requires Inferrable(p, env)
  {
    var s := Found(p, env, now);
    if s.cwd == "" then m else m["workspace:" + s.cwd := WorkspaceFor(s, now)]
  }

  ghost function Places(ps: seq<Process>, env: Env, now: Instant): map<string, Workspace>
    requires AllInferrable(ps, env)
  {
    if ps == [] then map[] else PlaceOne(Places(ps[..|ps| - 1], env, now), ps[|ps| - 1], env, now)
  }

  lemma PlacesSnoc(ps: seq<Process>, p: Process, env: Env, now: Instant)
    requires AllInferrable(ps, env) && Inferrable(p, env)
    ensures AllInferrable(ps + [p], env)
    ensures Places(ps + [p], env, now) == PlaceOne(Places(ps, env, now), p, env, now)
  {
    assert (ps + [p])[..|ps|] == ps;
  }

  /** Process `i` is the last of the list that runs in the directory of workspace `id`. */
  ghost predicate LastThere(ps: seq<Process>, env: Env, i: nat, id: string) {
    && i < |ps| && RunsIn(ps[i], env, id)
    && forall j :: i < j < |ps| ==> !RunsIn(ps[j], env, id)
  }

  predicate RunsIn(p: Process, env: Env, id: string) {
    Directory(p, env).Some? && Directory(p, env).value != "" && id == "workspace:" + Directory(p, env).value
  }

  /** The workspace record that process `p` leaves. */
  ghost predicate DescribesPlace(w: Workspace, p: Process, env: Env, now: Instant)
    requires Inferrable(p, env)
  {
    && Some(w.path) == Directory(p, env) && w.id == "workspace:" + w.path && w.kind == "workspace"
    && w.sessionIds == [IdOf(p, env)] && w.source == SourceOf(p, env) && w.confidence == "low" && w.observedAt == now
  }

  lemma PlaceOneExact(m: map<string, Workspace>, p: Process, env: Env, now: Instant, id: string)
    requires Inferrable(p, env)
    ensures var after := PlaceOne(m, p, env, now);
            if RunsIn(p, env, id) then id in after && DescribesPlace(after[id], p, env, now)
            else (id in after <==> id in m) && (id in m ==> after[id] == m[id])
  {
  }

  /** The last process that runs in a directory describes its workspace. */
  lemma {:induction false} PlacesLast(ps: seq<Process>, env: Env, now: Instant, id: string, i: nat)
    requires AllInferrable(ps, env) && LastThere(ps, env, i, id)
    ensures id in Places(ps, env, now) && DescribesPlace(Places(ps, env, now)[id], ps[i], env, now)
  {
    var n := |ps| - 1;
    PlaceOneExact(Places(ps[..n], env, now), ps[n], env, now, id);
    if i < n { PlacesLast(ps[..n], env, now, id, i); }
  }

  lemma {:induction false} PlacesNowhere(ps: seq<Process>, env: Env, now: Instant, id: string)
    requires AllInferrable(ps, env) && forall p :: p in ps ==> !RunsIn(p, env, id)
    ensures id !in Places(ps, env, now)
  {
    if ps != [] {
      PlaceOneExact(Places(ps[..|ps| - 1], env, now), ps[|ps| - 1], env, now, id);
      PlacesNowhere(ps[..|ps| - 1], env, now, id);
    }
  }

  // ----- Sweeping, and the whole -----

  function Natives(sessions: map<string, Session>): map<string, Session> {
    map id | id in sessions && !IsInferred(sessions[id]) :: sessions[id]
  }

  function Foreign(edges: map<string, Edge>): map<string, Edge> {
    map id | id in edges && !HasPrefix(id, EDGE_PREFIX) :: edges[id]
  }

  ghost function Claimed(sessions: map<string, Session>, scan: Scan): (ps: seq<Process>)
    ensures AllInferrable(ps, scan.env)
  {
    Claim(sessions, scan.processes, scan.env)
  }

  /** The inferred sessions after the scan. */
  ghost function Linked(sessions: map<string, Session>, scan: Scan): map<string, Session> {
    var ps := Claimed(sessions, scan);
    Link(Records(sessions, ps, scan.env, scan.now), ps, PidMap(ps, scan.env))
  }

  ghost function Spawned(sessions: map<string, Session>, scan: Scan): map<string, Edge> {
    var ps := Claimed(sessions, scan);
    Spawns(ps, PidMap(ps, scan.env), scan.now)
  }

  ghost function SettleSessions(sessions: map<string, Session>, scan: Scan): map<string, Session> {
    Natives(sessions) + Linked(sessions, scan)
  }

  ghost function SettleEdges(sessions: map<string, Session>, edges: map<string, Edge>, scan: Scan): map<string, Edge> {
    Foreign(edges) + Spawned(sessions, scan)
  }

  ghost function SettleWorkspaces(sessions: map<string, Session>, workspaces: map<string, Workspace>,
                                  scan: Scan): map<string, Workspace> {
    workspaces + Places(Claimed(sessions, scan), scan.env, scan.now)
  }

  // ----- Basic facts about the whole -----

  lemma PidsWithin(base: map<string, Session>, ps: seq<Process>, env: Env, now: Instant)
    requires AllInferrable(ps, env)
    ensures Within(PidMap(ps, env), Records(base, ps, env, now))
  {
    PidMapShape(ps, env);
    RecordsShape(base, ps, env, now);
  }

  lemma LinkedKeys(sessions: map<string, Session>, scan: Scan)
    ensures Linked(sessions, scan).Keys == Records(sessions, Claimed(sessions, scan), scan.env, scan.now).Keys
  {
    var ps := Claimed(sessions, scan);
    LinkKeeps(Records(sessions, ps, scan.env, scan.now), ps, PidMap(ps, scan.env));
  }

  /** Linked sessions: keys, marker, status and times. */
  lemma LinkedShape(sessions: map<string, Session>, scan: Scan)
    ensures Linked(sessions, scan).Keys == Records(sessions, Claimed(sessions, scan), scan.env, scan.now).Keys
    ensures forall id :: id in Linked(sessions, scan) ==>
              var s := Linked(sessions, scan)[id];
              && s.id == id && IsInferred(s) && s.status == STATUS_WORKING
              && s.startedAt == StartOf(sessions, id, scan.now) && s.lastActivityAt == scan.now
    ensures forall id :: id in Linked(sessions, scan) ==> !NativelyOwned(sessions, id)
  {
    var ps := Claimed(sessions, scan);
    var records := Records(sessions, ps, scan.env, scan.now);
    RecordsShape(sessions, ps, scan.env, scan.now);
    LinkKeeps(records, ps, PidMap(ps, scan.env));
    var linked := Linked(sessions, scan);
    forall id | id in linked
      ensures linked[id].id == id && IsInferred(linked[id]) && linked[id].status == STATUS_WORKING
      ensures linked[id].startedAt == StartOf(sessions, id, scan.now) && linked[id].lastActivityAt == scan.now
      ensures !NativelyOwned(sessions, id)
    {
      assert SameButLinks(records[id], linked[id]);
      assert Fresh(records[id], id, StartOf(sessions, id, scan.now), scan.now);
    }
  }

  function InferredIds(sessions: map<string, Session>): set<string> {
    set id | id in sessions && IsInferred(sessions[id])
  }

  /** Some process of the table infers this identifier and no native session owns it. */
  ghost predicate Expected(sessions: map<string, Session>, processes: seq<Process>, env: Env, id: string) {
    exists p :: p in processes && Claims(sessions, p, env) && IdOf(p, env) == id
  }

  /**
   * Exact and framed: the inferred sessions are those of the inferrable processes that no
   * native session owns, and the native sessions are exactly the ones there were.
   */
  lemma SessionsExact(sessions: map<string, Session>, scan: Scan)
    ensures forall id ::
              id in InferredIds(SettleSessions(sessions, scan)) <==> Expected(sessions, scan.processes, scan.env, id)
    ensures Natives(SettleSessions(sessions, scan)) == Natives(sessions)
  {
    LinkedShape(sessions, scan);
    forall id
      ensures id in InferredIds(SettleSessions(sessions, scan)) <==> Expected(sessions, scan.processes, scan.env, id)
    {
      RecordsKeys(sessions, Claimed(sessions, scan), scan.env, scan.now, id);
      ClaimedIds(sessions, scan.processes, scan.env, id);
    }
  }

  /** The session carries the reconciler's own mark. */
  ghost predicate Marked(s: Session) {
    match s.process
    case Some(meta) => meta.inferred
    case None => false
  }

  /** A scan neither changes, removes nor adds a session without the mark or an edge outside its own namespace. */
  lemma OthersUntouched(sessions: map<string, Session>, edges: map<string, Edge>, scan: Scan, id: string)
    ensures var after := SettleSessions(sessions, scan);
            && (id in sessions && !Marked(sessions[id]) ==> id in after && after[id] == sessions[id])
            && (id in after && !Marked(after[id]) ==> id in sessions && after[id] == sessions[id])
    ensures var after := SettleEdges(sessions, edges, scan);
            !("process:spawned_by:" <= id) ==>
              (id in after <==> id in edges) && (id in after ==> after[id] == edges[id])
  {
    LinkedShape(sessions, scan);
    var ps := Claimed(sessions, scan);
    SpawnsShape(ps, PidMap(ps, scan.env), scan.now);
  }

  lemma {:induction false} ClaimedIds(sessions: map<string, Session>, processes: seq<Process>, env: Env, id: string)
    ensures Names(Claim(sessions, processes, env), env, id) <==> Expected(sessions, processes, env, id)
  {
    if processes != [] {
      var front := processes[..|processes| - 1];
      var p := processes[|processes| - 1];
      ClaimedIds(sessions, front, env, id);
      assert processes == front + [p];
      ClaimSnoc(sessions, front, p, env);
      if Claims(sessions, p, env) { NamesSnoc(Claim(sessions, front, env), Resolve(p, env), env, id); }
    }
  }

  /**
   * The process edges are exactly the parent/child pairs among the claimed processes, and
   * every other edge is the one there was.
   */
  lemma EdgesExact(sessions: map<string, Session>, edges: map<string, Edge>, scan: Scan)
    ensures var ps := Claimed(sessions, scan);
            var after := SettleEdges(sessions, edges, scan);
            && Foreign(after) == Foreign(edges)
            && (forall id :: id in after && HasPrefix(id, EDGE_PREFIX) <==> NamesPair(ps, PidMap(ps, scan.env), id))
  {
    var ps := Claimed(sessions, scan);
    SpawnsShape(ps, PidMap(ps, scan.env), scan.now);
  }

  /** Both ends of a process edge are inferred sessions of the store. */
  lemma EdgeEndsLive(sessions: map<string, Session>, edges: map<string, Edge>, scan: Scan, id: string)
    requires id in Spawned(sessions, scan)
    ensures id in SettleEdges(sessions, edges, scan)
    ensures var e := SettleEdges(sessions, edges, scan)[id];
            && e.id == id == "process:spawned_by:" + e.from + "->" + e.to
            && e.relation == "spawned_by" && e.source == "process" && e.confidence == "low" && e.observedAt == scan.now
            && e.from in Linked(sessions, scan) && e.to in Linked(sessions, scan)
  {
    var ps := Claimed(sessions, scan);
    var pids := PidMap(ps, scan.env);
    SpawnsEnds(ps, pids, scan.now, id);
    PidsWithin(sessions, ps, scan.env, scan.now);
    LinkedKeys(sessions, scan);
  }

  /**
   * The workspaces after a scan: those where a claimed process runs are described by the last
   * one there, and every other is as it was.
   */
  lemma WorkspacesExact(sessions: map<string, Session>, workspaces: map<string, Workspace>, scan: Scan, id: string)
    ensures var ps := Claimed(sessions, scan);
            var after := SettleWorkspaces(sessions, workspaces, scan);
            && (forall i: nat :: LastThere(ps, scan.env, i, id) ==>
                  id in after && DescribesPlace(after[id], ps[i], scan.env, scan.now))
            && ((forall p :: p in ps ==> !RunsIn(p, scan.env, id)) ==>
                  (id in after <==> id in workspaces) && (id in after ==> after[id] == workspaces[id]))
  {
    var ps := Claimed(sessions, scan);
    forall i: nat | LastThere(ps, scan.env, i, id)
      ensures id in Places(ps, scan.env, scan.now)
              && DescribesPlace(Places(ps, scan.env, scan.now)[id], ps[i], scan.env, scan.now)
    {
      PlacesLast(ps, scan.env, scan.now, id, i);
    }
    if forall p :: p in ps ==> !RunsIn(p, scan.env, id) { PlacesNowhere(ps, scan.env, scan.now, id); }
  }

  lemma {:induction false} SpawnsEnds(ps: seq<Process>, pids: map<int, string>, now: Instant, id: string)
    requires id in Spawns(ps, pids, now)
    ensures var e := Spawns(ps, pids, now)[id];
            && e.id == id == "process:spawned_by:" + e.from + "->" + e.to
            && e.relation == "spawned_by" && e.source == "process" && e.confidence == "low" && e.observedAt == now
            && exists p :: p in ps && HasParent(p, pids) && e.from == pids[p.pid] && e.to == pids[p.ppid]
  {
    var front := ps[..|ps| - 1];
    var p := ps[|ps| - 1];
    if HasParent(p, pids) && EdgeId(pids[p.pid], pids[p.ppid]) == id {
    } else {
      SpawnsEnds(front, pids, now, id);
    }
  }
}
