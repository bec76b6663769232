/** The in-memory store of internal/store/store.go, one call at a time. */
module Stores {
  import opened Model
  import opened EventLog
  import opened Sorting
  import opened StoreSpec

  datatype Lineage = Lineage(
    rootId: string, sessions: seq<Session>, workspaces: seq<Workspace>, edges: seq<Edge>)

  predicate StartedBefore(a: Session, b: Session) { a.startedAt < b.startedAt }

  predicate ObservedBefore(a: Edge, b: Edge) { a.observedAt < b.observedAt }

  lemma TimeOrders()
    ensures StrictWeakOrder(StartedBefore) && StrictWeakOrder(ObservedBefore)
  {
  }

  /** `xs` holds each edge with a key in `keys` that lineage `p` selects once, and nothing else. */
  ghost predicate ListsEdges(xs: seq<Edge>, edges: map<string, Edge>, keys: set<string>, p: Edge -> bool) {
    forall e: Edge :: multiset(xs)[e] ==
      if e.id in keys && e.id in edges && edges[e.id] == e && p(e) then 1 else 0
  }

  ghost predicate ListsLineage(xs: seq<Session>, sessions: map<string, Session>, keys: set<string>, root: string) {
    forall s: Session :: multiset(xs)[s] ==
      if s.id in keys && s.id in sessions && sessions[s.id] == s && InLineage(root, s) then 1 else 0
  }

  /** The edge has an end among the sessions, or everything was asked for. */
  ghost predicate EndsIn(xs: seq<Session>, root: string, e: Edge) {
    root == "" || exists s :: s in xs && (s.id == e.from || s.id == e.to)
  }

  ghost predicate NamedBy(xs: seq<Session>, id: string) {
    exists s :: s in xs && id in s.workspaceIds
  }

  ghost predicate OldestFirst(xs: seq<Session>) {
    forall i, j :: 0 <= i < j < |xs| ==> xs[i].startedAt <= xs[j].startedAt
  }

  /** The answer holds the stored sessions with this id, root or parent; all of them for a blank one. */
  ghost predicate AnswersSessions(r: Lineage, sessions: map<string, Session>) {
    forall s: Session :: s in r.sessions <==>
      && s.id in sessions && sessions[s.id] == s
      && (r.rootId == "" || s.id == r.rootId || s.rootId == r.rootId || s.parentId == r.rootId)
  }

  /** The answer holds the stored edges with an end among its sessions. */
  ghost predicate AnswersEdges(r: Lineage, edges: map<string, Edge>) {
    forall e: Edge :: e in r.edges <==> e.id in edges && edges[e.id] == e && EndsIn(r.sessions, r.rootId, e)
  }

  /** The answer holds the stored workspaces that one of its sessions names. */
  ghost predicate AnswersWorkspaces(r: Lineage, workspaces: map<string, Workspace>) {
    forall w: Workspace :: w in r.workspaces <==>
      w.id in workspaces && workspaces[w.id] == w && NamedBy(r.sessions, w.id)
  }

  ghost predicate ListsWorkspaces(xs: seq<Workspace>, workspaces: map<string, Workspace>, keys: set<string>,
                                  ids: set<string>) {
    forall w: Workspace :: multiset(xs)[w] ==
      if w.id in keys && w.id in workspaces && workspaces[w.id] == w && w.id in ids then 1 else 0
  }

  class Store {
    var sessions: map<string, Session>
    var workspaces: map<string, Workspace>
    var edges: map<string, Edge>
    var events: seq<Event>
    var nextSeq: nat
    const maxEvents: nat
    /** Every event ever appended, evicted ones included. */
    ghost var history: seq<Event>
    /** The operations performed since the store was made. */
    ghost var trace: seq<Op>

    ghost function State(): Snapshot
      reads this
    {
      Snapshot(sessions, workspaces, edges, history)
    }

    ghost predicate LogValid()
      reads this
    {
      maxEvents > 0 && Represents(Log(events, nextSeq), history, maxEvents)
    }

    ghost predicate Valid()
      reads this
    {
      LogValid() && State() == Run(EMPTY, trace)
    }

    lemma RecordsKeyed()
      requires Valid()
      ensures Keyed(State())
    {
      RunKeyed(trace);
    }

    constructor (retention: nat)
      requires retention > 0
      ensures Valid() && State() == EMPTY && trace == [] && maxEvents == retention
    {
      sessions, workspaces, edges := map[], map[], map[];
      events, nextSeq, history, trace := [], 0, [], [];
      maxEvents := retention;
    }

    /** appendEvent without its subscribers. */
    method LogEvent(e: Event)
      requires LogValid()
      modifies this`events, this`nextSeq, this`history
      ensures LogValid() && history == Extend(old(history), e)
    {
      AppendRepresents(Log(events, nextSeq), history, maxEvents, e);
      nextSeq := nextSeq + 1;
      events := events + [Stamp(e, nextSeq)];
      if |events| > maxEvents {
        events := events[|events| - maxEvents..];
      }
      history := Extend(history, e);
    }

    /** The defaulting that UpsertSession does before it takes the lock. */
    static method FillDefaults(session: Session, clock: Instant) returns (s: Session)
      ensures s == NormalizeSession(session, clock)
    {
      var kind, status, attention := session.kind, session.status, session.attention;
      var confidence, source, root := session.confidence, session.source, session.rootId;
      var last, started := session.lastActivityAt, session.startedAt;
      if kind == "" { kind := "session"; }
      if status == "" { status := STATUS_UNKNOWN; }
      if attention == "" { attention := DeriveAttention(status); }
      if confidence == "" { confidence := CONFIDENCE_UNKNOWN; }
      if source == "" { source := "native"; }
      if last == ZERO_TIME { last := clock; }
      if started == ZERO_TIME { started := last; }
      if root == "" {
        root := if session.parentId != "" then session.parentId else session.id;
      }
      s := session.(kind := kind, status := status, attention := attention, confidence := confidence,
                    source := source, lastActivityAt := last, startedAt := started, rootId := root);
    }

    method UpsertSession(session: Session, clock: Instant) returns (s: Session)
      requires Valid()
      modifies this
      ensures Valid() && trace == old(trace) + [PutSession(session, clock)]
      ensures State() == Apply(old(State()), PutSession(session, clock))
      ensures s == if session.id == "" then session else NormalizeSession(session, clock)
      ensures session.id != "" ==> SessionDefaults(session, s, clock) && sessions == old(sessions)[session.id := s]
    {
      ghost var op := PutSession(session, clock);
      RunOneMore(EMPTY, trace, op);
      trace := trace + [op];
      if session.id == "" {
        return session;
      }
      s := FillDefaults(session, clock);
      SessionDefaultsExact(session, clock);
      var e := SessionEvent(sessions, s);
      sessions := sessions[s.id := s];
      LogEvent(e);
    }

    method RemoveSession(id: string) returns (existed: bool)
      requires Valid()
      modifies this
      ensures Valid() && trace == old(trace) + [DropSession(id)]
      ensures State() == Apply(old(State()), DropSession(id))
      ensures existed == (id in old(sessions))
    {
      ghost var op := DropSession(id);
      RunOneMore(EMPTY, trace, op);
      trace := trace + [op];
      existed := id in sessions;
      if existed {
        sessions := sessions - {id};
        LogEvent(SessionRemovedEvent(id));
      }
    }

    method GetSession(id: string) returns (s: Option<Session>)
      ensures s == if id in sessions then Some(sessions[id]) else None
    {
      s := if id in sessions then Some(sessions[id]) else None;
    }

    /** The statuses a filter names, "" aside. */
    static method StatusSet(status: seq<string>) returns (statuses: set<string>)
      ensures forall x :: x in statuses <==> x != "" && x in status
    {
      statuses := {};
      for i := 0 to |status|
        invariant forall x :: x in statuses <==> x != "" && x in status[..i]
      {
        assert status[..i + 1] == status[..i] + [status[i]];
        if status[i] != "" {
          statuses := statuses + {status[i]};
        }
      }
      assert status[..|status|] == status;
    }

    /** The four tests of the listing loop. */
    static method Passes(filter: SessionFilter, statuses: set<string>, session: Session) returns (keep: bool)
      requires forall x :: x in statuses <==> x != "" && x in filter.status
      ensures keep == Matches(filter, session)
    {
      assert statuses == {} <==> forall x | x in filter.status :: x == "";
      if !filter.all && IsTerminal(session.status) {
        return false;
      }
      if statuses != {} && session.status !in statuses {
        return false;
      }
      if filter.source != "" && session.source != filter.source && session.adapter != filter.source {
        return false;
      }
      if filter.workspace != "" && !MatchesWorkspace(session, filter.workspace) {
        return false;
      }
      return true;
    }

    method SelectSessions(filter: SessionFilter) returns (out: seq<Session>)
      requires Valid()
      ensures ListsSessions(out, sessions, sessions.Keys, filter)
    {
      RecordsKeyed();
      var statuses := StatusSet(filter.status);
      var rest := sessions.Keys;
      out := [];
      while rest != {}
        invariant rest <= sessions.Keys
        invariant ListsSessions(out, sessions, sessions.Keys - rest, filter)
      {
        var id :| id in rest;
        var session := sessions[id];
        var keep := Passes(filter, statuses, session);
        if keep {
          out := out + [session];
        }
        rest := rest - {id};
      }
      assert sessions.Keys - {} == sessions.Keys;
    }

    /** Exactly the matching sessions, each once, most urgent first. */
    method ListSessions(filter: SessionFilter) returns (out: seq<Session>)
      requires Valid()
      ensures ListsSessions(out, sessions, sessions.Keys, filter)
      ensures Sorted(out, SessionLess) && MostUrgentFirst(out)
    {
      out := SelectSessions(filter);
      SessionLessIsStrictWeakOrder();
      out := Sort(out, SessionLess);
      SortedIsMostUrgentFirst(out);
    }

    static method FillWorkspace(workspace: Workspace, clock: Instant) returns (w: Workspace)
      ensures w == NormalizeWorkspace(workspace, clock)
    {
      w := workspace;
      if w.id == "" { w := w.(id := "workspace:" + w.path); }
      if w.kind == "" { w := w.(kind := "workspace"); }
      if w.source == "" { w := w.(source := "native"); }
      if w.confidence == "" { w := w.(confidence := CONFIDENCE_UNKNOWN); }
      if w.observedAt == ZERO_TIME { w := w.(observedAt := clock); }
    }

    method UpsertWorkspace(workspace: Workspace, clock: Instant) returns (w: Workspace)
      requires Valid()
      modifies this
      ensures Valid() && trace == old(trace) + [PutWorkspace(workspace, clock)]
      ensures State() == Apply(old(State()), PutWorkspace(workspace, clock))
      ensures w == NormalizeWorkspace(workspace, clock)
      ensures WorkspaceDefaults(workspace, w, clock) && workspaces == old(workspaces)[w.id := w]
    {
      ghost var op := PutWorkspace(workspace, clock);
      RunOneMore(EMPTY, trace, op);
      trace := trace + [op];
      w := FillWorkspace(workspace, clock);
      WorkspaceDefaultsExact(workspace, clock);
      var e := WorkspaceEvent(workspaces, w);
      workspaces := workspaces[w.id := w];
      LogEvent(e);
    }

    static method FillEdge(edge: Edge, clock: Instant) returns (r: Edge)
      ensures r == NormalizeEdge(edge, clock)
    {
      r := edge;
      if r.id == "" { r := r.(id := r.relation + ":" + r.from + "->" + r.to); }
      if r.source == "" { r := r.(source := "native"); }
      if r.confidence == "" { r := r.(confidence := CONFIDENCE_UNKNOWN); }
      if r.observedAt == ZERO_TIME { r := r.(observedAt := clock); }
    }

    method UpsertEdge(edge: Edge, clock: Instant) returns (r: Edge)
      requires Valid()
      modifies this
      ensures Valid() && trace == old(trace) + [PutEdge(edge, clock)]
      ensures State() == Apply(old(State()), PutEdge(edge, clock))
      ensures r == NormalizeEdge(edge, clock)
      ensures EdgeDefaults(edge, r, clock) && edges == old(edges)[r.id := r]
    {
      ghost var op := PutEdge(edge, clock);
      RunOneMore(EMPTY, trace, op);
      trace := trace + [op];
      r := FillEdge(edge, clock);
      EdgeDefaultsExact(edge, clock);
      var e := EdgeEvent(edges, r);
      edges := edges[r.id := r];
      LogEvent(e);
    }

    method RemoveEdge(id: string) returns (existed: bool)
      requires Valid()
      modifies this
      ensures Valid() && trace == old(trace) + [DropEdge(id)]
      ensures State() == Apply(old(State()), DropEdge(id))
      ensures existed == (id in old(edges))
    {
      ghost var op := DropEdge(id);
      RunOneMore(EMPTY, trace, op);
      trace := trace + [op];
      existed := id in edges;
      if existed {
        edges := edges - {id};
        LogEvent(EdgeRemovedEvent(id));
      }
    }

    method SelectEdges(p: Edge -> bool) returns (out: seq<Edge>)
      requires Valid()
      ensures ListsEdges(out, edges, edges.Keys, p)
    {
      RecordsKeyed();
      var rest := edges.Keys;
      out := [];
      while rest != {}
        invariant rest <= edges.Keys
        invariant ListsEdges(out, edges, edges.Keys - rest, p)
      {
        var id :| id in rest;
        var edge := edges[id];
        if p(edge) {
          out := out + [edge];
        }
        rest := rest - {id};
      }
      assert edges.Keys - {} == edges.Keys;
    }

    method ListEdges() returns (out: seq<Edge>)
      requires Valid()
      ensures ListsEdges(out, edges, edges.Keys, e => true)
      ensures forall i, j :: 0 <= i < j < |out| ==> out[i].observedAt <= out[j].observedAt
    {
      out := SelectEdges(e => true);
      TimeOrders();
      out := Sort(out, ObservedBefore);
      assert forall i, j :: 0 <= i < j < |out| ==> !ObservedBefore(out[j], out[i]);
    }

    method SelectLineage(root: string) returns (out: seq<Session>)
      requires Valid()
      ensures ListsLineage(out, sessions, sessions.Keys, root)
    {
      RecordsKeyed();
      var rest := sessions.Keys;
      out := [];
      while rest != {}
        invariant rest <= sessions.Keys
        invariant ListsLineage(out, sessions, sessions.Keys - rest, root)
      {
        var id :| id in rest;
        var session := sessions[id];
        if InLineage(root, session) {
          out := out + [session];
        }
        rest := rest - {id};
      }
      assert sessions.Keys - {} == sessions.Keys;
    }

    static method SessionSet(xs: seq<Session>) returns (ids: set<string>)
      ensures forall id :: id in ids <==> exists s | s in xs :: s.id == id
    {
      ids := {};
      for i := 0 to |xs|
        invariant forall id :: id in ids <==> exists s | s in xs[..i] :: s.id == id
      {
        assert xs[..i + 1] == xs[..i] + [xs[i]];
        ids := ids + {xs[i].id};
      }
      assert xs[..|xs|] == xs;
    }

    static method WorkspacesNamed(xs: seq<Session>) returns (ids: set<string>)
      ensures forall w :: w in ids <==> exists s | s in xs :: w in s.workspaceIds
    {
      ids := {};
      for i := 0 to |xs|
        invariant forall w :: w in ids <==> exists s | s in xs[..i] :: w in s.workspaceIds
      {
        assert xs[..i + 1] == xs[..i] + [xs[i]];
        ids := ids + (set w | w in xs[i].workspaceIds);
      }
      assert xs[..|xs|] == xs;
    }

    lemma LineageMembers(xs: seq<Session>, root: string)
      requires Valid() && ListsLineage(xs, sessions, sessions.Keys, root)
      ensures forall s: Session :: s in xs <==> s.id in LineageIds(sessions, root) && sessions[s.id] == s
    {
      forall s: Session ensures s in xs <==> s.id in LineageIds(sessions, root) && sessions[s.id] == s {
        assert s in xs <==> multiset(xs)[s] > 0;
      }
    }

    lemma LineageIdsAre(xs: seq<Session>, root: string)
      requires Valid() && ListsLineage(xs, sessions, sessions.Keys, root)
      ensures forall id :: (exists s | s in xs :: s.id == id) <==> id in LineageIds(sessions, root)
    {
      RecordsKeyed();
      LineageMembers(xs, root);
      forall id | id in LineageIds(sessions, root) ensures exists s | s in xs :: s.id == id {
        assert sessions[id] in xs && sessions[id].id == id;
      }
    }

    lemma LineageWorkspacesAre(xs: seq<Session>, root: string)
      requires Valid() && ListsLineage(xs, sessions, sessions.Keys, root)
      ensures forall w :: (exists s | s in xs :: w in s.workspaceIds) <==> WorkspaceInLineage(sessions, root, w)
    {
      RecordsKeyed();
      LineageMembers(xs, root);
      forall w | WorkspaceInLineage(sessions, root, w) ensures exists s | s in xs :: w in s.workspaceIds {
        var id :| id in LineageIds(sessions, root) && w in sessions[id].workspaceIds;
        assert sessions[id] in xs;
      }
    }

    method SelectWorkspaces(ids: set<string>) returns (out: seq<Workspace>)
      requires Valid()
      ensures ListsWorkspaces(out, workspaces, workspaces.Keys, ids)
    {
      RecordsKeyed();
      var rest := workspaces.Keys;
      out := [];
      while rest != {}
        invariant rest <= workspaces.Keys
        invariant ListsWorkspaces(out, workspaces, workspaces.Keys - rest, ids)
      {
        var id :| id in rest;
        if id in ids {
          out := out + [workspaces[id]];
        }
        rest := rest - {id};
      }
      assert workspaces.Keys - {} == workspaces.Keys;
    }

    /** The selected records, each once: what the four loops of Lineage collect. */
    ghost predicate Collected(r: Lineage)
      reads this
    {
      var all, root := sessions, r.rootId;
      && ListsLineage(r.sessions, sessions, sessions.Keys, root)
      && ListsEdges(r.edges, edges, edges.Keys, e => EdgeInLineage(all, root, e))
      && ListsPlaces(r.workspaces, root)
    }

    ghost predicate ListsPlaces(places: seq<Workspace>, root: string)
      reads this
    {
      forall w :: multiset(places)[w] ==
        if w.id in workspaces && workspaces[w.id] == w && WorkspaceInLineage(sessions, root, w.id) then 1 else 0
    }

    lemma LineageSessionsAre(r: Lineage)
      requires Valid() && Collected(r)
      ensures AnswersSessions(r, sessions)
    {
      LineageMembers(r.sessions, r.rootId);
    }

    lemma LineageEdgesAre(r: Lineage)
      requires Valid() && Collected(r)
      ensures AnswersEdges(r, edges)
    {
      LineageIdsAre(r.sessions, r.rootId);
      forall e: Edge
        ensures e in r.edges <==> e.id in edges && edges[e.id] == e && EndsIn(r.sessions, r.rootId, e)
      {
        assert e in r.edges <==> multiset(r.edges)[e] > 0;
        assert EdgeInLineage(sessions, r.rootId, e) <==> EndsIn(r.sessions, r.rootId, e);
      }
    }

    lemma LineagePlacesAre(r: Lineage)
      requires Valid() && Collected(r)
      ensures AnswersWorkspaces(r, workspaces)
    {
      LineageWorkspacesAre(r.sessions, r.rootId);
      forall w: Workspace
        ensures w in r.workspaces <==> w.id in workspaces && workspaces[w.id] == w && NamedBy(r.sessions, w.id)
      {
        assert w in r.workspaces <==> multiset(r.workspaces)[w] > 0;
        assert WorkspaceInLineage(sessions, r.rootId, w.id) <==> NamedBy(r.sessions, w.id);
      }
    }

    /** One pass over the store: sessions by identifier, root and parent, then the edges and workspaces they touch. */
    method CollectLineage(root: string) returns (r: Lineage)
      requires Valid()
      ensures r.rootId == root && Collected(r) && OldestFirst(r.sessions)
    {
      var chosen := SelectLineage(root);
      var touched := SelectTouched(chosen, root);
      var places := SelectNamed(chosen, root);
      var sorted := SortByStart(chosen);
      r := Lineage(root, sorted, places, touched);
    }

    /** The edges with an end among the chosen sessions. */
    method SelectTouched(chosen: seq<Session>, root: string) returns (touched: seq<Edge>)
      requires Valid() && ListsLineage(chosen, sessions, sessions.Keys, root)
      ensures var all := sessions; ListsEdges(touched, edges, edges.Keys, e => EdgeInLineage(all, root, e))
    {
      var ids := SessionSet(chosen);
      LineageIdsAre(chosen, root);
      assert ids == LineageIds(sessions, root);
      touched := SelectEdges((e: Edge) => root == "" || e.from in ids || e.to in ids);
    }

    /** The workspaces that the chosen sessions name. */
    method SelectNamed(chosen: seq<Session>, root: string) returns (places: seq<Workspace>)
      requires Valid() && ListsLineage(chosen, sessions, sessions.Keys, root)
      ensures ListsPlaces(places, root)
    {
      var ids := WorkspacesNamed(chosen);
      LineageWorkspacesAre(chosen, root);
      places := SelectWorkspaces(ids);
    }

    static method SortByStart(chosen: seq<Session>) returns (sorted: seq<Session>)
      ensures multiset(sorted) == multiset(chosen) && OldestFirst(sorted)
    {
      TimeOrders();
      sorted := Sort(chosen, StartedBefore);
      assert forall i, j :: 0 <= i < j < |sorted| ==> !StartedBefore(sorted[j], sorted[i]);
    }

    /** The sessions asked for, oldest first, and the edges and workspaces they touch. */
    method LineageOf(root: string) returns (r: Lineage)
      requires Valid()
      ensures r.rootId == root && Collected(r) && OldestFirst(r.sessions)
      ensures AnswersSessions(r, sessions) && AnswersEdges(r, edges) && AnswersWorkspaces(r, workspaces)
    {
      r := CollectLineage(root);
      LineageSessionsAre(r);
      LineageEdgesAre(r);
      LineagePlacesAre(r);
    }

    /** Filter by number, then keep the newest: one slice of the full history. */
    method ListEvents(since: int, limit: int) returns (out: seq<Event>)
      requires Valid()
      ensures out == history[WindowStart(|history|, maxEvents, since, limit)..]
    {
      out := [];
      for i := 0 to |events|
        invariant out == After(events[..i], since)
      {
        assert events[..i + 1][..i] == events[..i];
        if events[i].seqNo > since {
          out := out + [events[i]];
        }
      }
      assert events[..|events|] == events;
      if limit > 0 && |out| > limit {
        out := out[|out| - limit..];
      }
      QueryIsWindow(history, maxEvents, since, limit);
    }
  }
}
