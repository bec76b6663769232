/**
 * The store as a value: what each operation does to the three maps and to the full event
 * history, and what the history says about the maps after every serial run.
 */
module StoreSpec {
  import opened Model
  import opened Text
  import opened EventLog
  import opened Sorting

  datatype Snapshot = Snapshot(
    sessions: map<string, Session>,
    workspaces: map<string, Workspace>,
    edges: map<string, Edge>,
    history: seq<Event>)

  const EMPTY := Snapshot(map[], map[], map[], [])

  // ----- Filling in defaults -----

  /** deriveAttention. */
  function DeriveAttention(status: string): string {
    if status == STATUS_BLOCKED then ATTENTION_INPUT
    else if status == STATUS_REVIEWABLE then ATTENTION_REVIEW
    else if status == STATUS_FAILED || status == STATUS_DISCONNECTED then ATTENTION_ERROR
    else ATTENTION_NONE
  }

  function Or(value: string, default: string): string {
    if value == "" then default else value
  }

  function OrTime(value: Time, default: Time): Time {
    if value == ZERO_TIME then default else value
  }

  function NormalizeSession(s: Session, clock: Instant): Session {
    var status := Or(s.status, STATUS_UNKNOWN);
    var last := OrTime(s.lastActivityAt, clock);
    s.(kind := Or(s.kind, "session"),
       status := status,
       attention := Or(s.attention, DeriveAttention(status)),
       confidence := Or(s.confidence, CONFIDENCE_UNKNOWN),
       source := Or(s.source, "native"),
       lastActivityAt := last,
       startedAt := OrTime(s.startedAt, last),
       rootId := Or(s.rootId, Or(s.parentId, s.id)))
  }

  function NormalizeWorkspace(w: Workspace, clock: Instant): Workspace {
    w.(id := Or(w.id, "workspace:" + w.path),
       kind := Or(w.kind, "workspace"),
       source := Or(w.source, "native"),
       confidence := Or(w.confidence, CONFIDENCE_UNKNOWN),
       observedAt := OrTime(w.observedAt, clock))
  }

  function NormalizeEdge(e: Edge, clock: Instant): Edge {
    e.(id := Or(e.id, e.relation + ":" + e.from + "->" + e.to),
       source := Or(e.source, "native"),
       confidence := Or(e.confidence, CONFIDENCE_UNKNOWN),
       observedAt := OrTime(e.observedAt, clock))
  }

  /** A given value is kept, a blank one becomes the default. */
  ghost predicate Filled(given: string, stored: string, default: string) {
    (given != "" ==> stored == given) && (given == "" ==> stored == default)
  }

  ghost predicate FilledTime(given: Time, stored: Time, default: Time) {
    (given != ZERO_TIME ==> stored == given) && (given == ZERO_TIME ==> stored == default)
  }

  /** What each status asks of the user. */
  ghost predicate AsksFor(status: string, attention: string) {
    && (status == "blocked" ==> attention == "input")
    && (status == "reviewable" ==> attention == "review")
    && (status == "failed" || status == "disconnected" ==> attention == "error")
    && (status !in ["blocked", "reviewable", "failed", "disconnected"] ==> attention == "none")
  }

  /** How a stored session relates to the one a caller gave, field by field. */
  ghost predicate SessionDefaults(given: Session, stored: Session, clock: Instant) {
    && Filled(given.kind, stored.kind, "session")
    && Filled(given.status, stored.status, "unknown")
    && Filled(given.confidence, stored.confidence, "unknown")
    && Filled(given.source, stored.source, "native")
    && FilledTime(given.lastActivityAt, stored.lastActivityAt, clock)
    && FilledTime(given.startedAt, stored.startedAt, stored.lastActivityAt)
    && (given.attention != "" ==> stored.attention == given.attention)
    && (given.attention == "" ==> AsksFor(stored.status, stored.attention))
    && (given.rootId != "" ==> stored.rootId == given.rootId)
    && (given.rootId == "" && given.parentId != "" ==> stored.rootId == given.parentId)
    && (given.rootId == "" && given.parentId == "" ==> stored.rootId == given.id)
    && stored == given.(kind := stored.kind, status := stored.status, attention := stored.attention,
                        confidence := stored.confidence, source := stored.source, rootId := stored.rootId,
                        lastActivityAt := stored.lastActivityAt, startedAt := stored.startedAt)
  }

  ghost predicate WorkspaceDefaults(given: Workspace, stored: Workspace, clock: Instant) {
    && Filled(given.id, stored.id, "workspace:" + given.path)
    && Filled(given.kind, stored.kind, "workspace")
    && Filled(given.source, stored.source, "native")
    && Filled(given.confidence, stored.confidence, "unknown")
    && FilledTime(given.observedAt, stored.observedAt, clock)
    && stored.path == given.path && stored.sessionIds == given.sessionIds
  }

  ghost predicate EdgeDefaults(given: Edge, stored: Edge, clock: Instant) {
    && Filled(given.id, stored.id, given.relation + ":" + given.from + "->" + given.to)
    && Filled(given.source, stored.source, "native")
    && Filled(given.confidence, stored.confidence, "unknown")
    && FilledTime(given.observedAt, stored.observedAt, clock)
    && stored.relation == given.relation && stored.from == given.from && stored.to == given.to
  }

  lemma AttentionExact(status: string)
    ensures AsksFor(status, DeriveAttention(status))
  {
    assert |STATUS_BLOCKED| == 7 && |STATUS_REVIEWABLE| == 10 && |STATUS_FAILED| == 6 && |STATUS_DISCONNECTED| == 12;
  }

  /** What is stored is what was given, with the blank fields filled in. */
  lemma SessionDefaultsExact(s: Session, clock: Instant)
    ensures SessionDefaults(s, NormalizeSession(s, clock), clock)
  {
    AttentionExact(NormalizeSession(s, clock).status);
  }

  lemma WorkspaceDefaultsExact(w: Workspace, clock: Instant)
    ensures WorkspaceDefaults(w, NormalizeWorkspace(w, clock), clock)
  {
  }

  lemma EdgeDefaultsExact(e: Edge, clock: Instant)
    ensures EdgeDefaults(e, NormalizeEdge(e, clock), clock)
  {
  }

  /** The relation leaves no freedom: two records stored for the same call are equal. */
  lemma DefaultsDecide(s: Session, a: Session, b: Session, clock: Instant)
    requires SessionDefaults(s, a, clock) && SessionDefaults(s, b, clock)
    ensures a == b
  {
    assert a.status == b.status;
    assert a.attention == b.attention;
  }

  /** Every field that UpsertSession defaults is filled in. */
  predicate Complete(s: Session) {
    && s.id != "" && s.kind != "" && s.status != "" && s.attention != "" && s.confidence != ""
    && s.source != "" && s.rootId != "" && s.startedAt != ZERO_TIME && s.lastActivityAt != ZERO_TIME
  }

  /** Normalizing completes a record and leaves a complete record alone. */
  lemma NormalizeCompletes(s: Session, clock: Instant)
    requires s.id != ""
    ensures Complete(NormalizeSession(s, clock))
    ensures Complete(s) ==> NormalizeSession(s, clock) == s
    ensures NormalizeSession(s, clock).id == s.id
    ensures NormalizeSession(s, clock).process == s.process
  {
  }

  // ----- Events -----

  function SessionEvent(sessions: map<string, Session>, s: Session): Event {
    var existed := s.id in sessions;
    var changed := existed && sessions[s.id].status != s.status;
    Event(0,
          if !existed then SessionStarted else if changed then StatusChanged else SessionUpserted,
          s.id, "", "",
          if !existed then "session started"
          else if changed then sessions[s.id].status + " -> " + s.status
          else "session upserted",
          s.source, s.status, s.attention)
  }

  function SessionRemovedEvent(id: string): Event {
    Event(0, SessionRemoved, id, "", "", "session removed", "native", "", "")
  }

  function WorkspaceEvent(workspaces: map<string, Workspace>, w: Workspace): Event {
    Event(0, if w.id in workspaces then WorkspaceUpserted else WorkspaceDiscovered,
          "", w.id, "", w.path, w.source, "", "")
  }

  predicate IsSpawnRelation(relation: string) {
    relation == "spawned_by" || relation == "delegated_by"
  }

  function EdgeEvent(edges: map<string, Edge>, e: Edge): Event {
    var spawns := e.id !in edges && IsSpawnRelation(e.relation);
    Event(0, if spawns then ChildSpawned else EdgeUpserted,
          "", "", e.id, e.relation + " " + e.from + " -> " + e.to, e.source, "", "")
  }

  function EdgeRemovedEvent(id: string): Event {
    Event(0, EdgeRemoved, "", "", id, "edge removed", "native", "", "")
  }

  // ----- Operations -----

  datatype Op =
    | PutSession(session: Session, clock: Instant)
    | DropSession(sessionId: string)
    | PutWorkspace(workspace: Workspace, clock: Instant)
    | PutEdge(edge: Edge, clock: Instant)
    | DropEdge(edgeId: string)

  function Apply(st: Snapshot, op: Op): Snapshot {
    match op
    case PutSession(session, clock) =>
      if session.id == "" then st
      else
        var s := NormalizeSession(session, clock);
        st.(sessions := st.sessions[s.id := s], history := Extend(st.history, SessionEvent(st.sessions, s)))
    case DropSession(id) =>
      if id !in st.sessions then st
      else st.(sessions := st.sessions - {id}, history := Extend(st.history, SessionRemovedEvent(id)))
    case PutWorkspace(workspace, clock) =>
      var w := NormalizeWorkspace(workspace, clock);
      st.(workspaces := st.workspaces[w.id := w], history := Extend(st.history, WorkspaceEvent(st.workspaces, w)))
    case PutEdge(edge, clock) =>
      var e := NormalizeEdge(edge, clock);
      st.(edges := st.edges[e.id := e], history := Extend(st.history, EdgeEvent(st.edges, e)))
    case DropEdge(id) =>
      if id !in st.edges then st
      else st.(edges := st.edges - {id}, history := Extend(st.history, EdgeRemovedEvent(id)))
  }

  function Run(st: Snapshot, ops: seq<Op>): Snapshot {
    if ops == [] then st else Apply(Run(st, ops[..|ops| - 1]), ops[|ops| - 1])
  }

  // ----- Replaying the history -----

  /** What an observer of the events alone can reconstruct. */
  datatype View = View(
    sessions: map<string, Headline>, workspaces: map<string, Caption>, edges: map<string, Caption>)

  /** What events carry of a session, and of a workspace or an edge. */
  datatype Headline = Headline(status: string, attention: string, source: string)
  datatype Caption = Caption(text: string, source: string)

  function Observe(v: View, e: Event): View {
    match e.kind
    case SessionStarted => v.(sessions := v.sessions[e.sessionId := Headline(e.status, e.attention, e.source)])
    case SessionUpserted => v.(sessions := v.sessions[e.sessionId := Headline(e.status, e.attention, e.source)])
    case StatusChanged => v.(sessions := v.sessions[e.sessionId := Headline(e.status, e.attention, e.source)])
    case SessionRemoved => v.(sessions := v.sessions - {e.sessionId})
    case WorkspaceDiscovered => v.(workspaces := v.workspaces[e.workspaceId := Caption(e.summary, e.source)])
    case WorkspaceUpserted => v.(workspaces := v.workspaces[e.workspaceId := Caption(e.summary, e.source)])
    case ChildSpawned => v.(edges := v.edges[e.edgeId := Caption(e.summary, e.source)])
    case EdgeUpserted => v.(edges := v.edges[e.edgeId := Caption(e.summary, e.source)])
    case EdgeRemoved => v.(edges := v.edges - {e.edgeId})
    case Custom(_) => v
  }

  function Replay(history: seq<Event>): View {
    if history == [] then View(map[], map[], map[])
    else Observe(Replay(history[..|history| - 1]), history[|history| - 1])
  }

  /** What the store itself shows of the same things. */
  function StoreView(st: Snapshot): View {
    View(map id | id in st.sessions :: HeadlineOf(st.sessions[id]),
         map id | id in st.workspaces :: Caption(st.workspaces[id].path, st.workspaces[id].source),
         map id | id in st.edges :: Caption(EdgeText(st.edges[id]), st.edges[id].source))
  }

  function HeadlineOf(s: Session): Headline { Headline(s.status, s.attention, s.source) }

  function EdgeText(e: Edge): string { e.relation + " " + e.from + " -> " + e.to }

  /** The summary reads as an edge whose relation is, or is not, a spawn relation. */
  ghost predicate Announces(e: Event, spawn: bool) {
    exists edge: Edge :: e.summary == EdgeText(edge) && spawn == (edge.relation in ["spawned_by", "delegated_by"])
  }

  /** The event's type says how it relates to what was known before it. */
  ghost predicate Tells(v: View, e: Event) {
    match e.kind
    case SessionStarted => e.sessionId !in v.sessions && e.summary == "session started"
    case SessionUpserted =>
      && e.sessionId in v.sessions && v.sessions[e.sessionId].status == e.status
      && e.summary == "session upserted"
    case StatusChanged =>
      && e.sessionId in v.sessions && v.sessions[e.sessionId].status != e.status
      && e.summary == v.sessions[e.sessionId].status + " -> " + e.status
    case SessionRemoved => e.sessionId in v.sessions && e.summary == "session removed" && e.source == "native"
    case WorkspaceDiscovered => e.workspaceId !in v.workspaces
    case WorkspaceUpserted => e.workspaceId in v.workspaces
    case ChildSpawned => e.edgeId !in v.edges && Announces(e, true)
    case EdgeUpserted => e.edgeId in v.edges || Announces(e, false)
    case EdgeRemoved => e.edgeId in v.edges && e.summary == "edge removed" && e.source == "native"
    case Custom(_) => true
  }

  ghost predicate TellsAt(history: seq<Event>, i: nat)
    requires i < |history|
  {
    Tells(Replay(history[..i]), history[i])
  }

  ghost predicate Truthful(history: seq<Event>) {
    forall i :: 0 <= i < |history| ==> TellsAt(history, i)
  }

  ghost predicate Keyed(st: Snapshot) {
    && (forall id :: id in st.sessions ==> st.sessions[id].id == id && Complete(st.sessions[id]))
    && (forall id :: id in st.workspaces ==> st.workspaces[id].id == id)
    && (forall id :: id in st.edges ==> st.edges[id].id == id)
  }

  /** Invariant of every serial run: records are keyed and complete, and the history tells the truth. */
  ghost predicate Honest(st: Snapshot) {
    && Keyed(st)
    && Numbered(st.history)
    && Replay(st.history) == StoreView(st)
    && Truthful(st.history)
  }

  lemma ExtendReplay(h: seq<Event>, e: Event)
    requires Truthful(h) && Tells(Replay(h), e)
    ensures Replay(Extend(h, e)) == Observe(Replay(h), e)
    ensures Truthful(Extend(h, e))
  {
    var h' := Extend(h, e);
    assert h'[..|h|] == h;
    StampedTells(Replay(h), e, |h| + 1);
    forall i | 0 <= i < |h'| ensures TellsAt(h', i) {
      if i < |h| {
        assert TellsAt(h, i);
        assert h'[..i] == h[..i];
      }
    }
  }

  /** The number does not matter to what an event tells or shows. */
  lemma StampedTells(v: View, e: Event, n: nat)
    ensures Tells(v, Stamp(e, n)) == Tells(v, e)
    ensures Observe(v, Stamp(e, n)) == Observe(v, e)
  {
  }

  lemma LoggedHonest(st: Snapshot, e: Event, after: Snapshot)
    requires Honest(st) && Keyed(after) && Tells(StoreView(st), e)
    requires after.history == Extend(st.history, e) && StoreView(after) == Observe(StoreView(st), e)
    ensures Honest(after)
  {
    ExtendReplay(st.history, e);
  }

  lemma PutSessionKeyed(st: Snapshot, session: Session, clock: Instant)
    requires Keyed(st) && session.id != ""
    ensures Keyed(Apply(st, PutSession(session, clock)))
  {
    NormalizeCompletes(session, clock);
  }

  lemma PutSessionHonest(st: Snapshot, session: Session, clock: Instant)
    requires Honest(st) && session.id != ""
    ensures Honest(Apply(st, PutSession(session, clock)))
  {
    var after := Apply(st, PutSession(session, clock));
    var s := NormalizeSession(session, clock);
    var e := SessionEvent(st.sessions, s);
    PutSessionKeyed(st, session, clock);
    assert StoreView(after).sessions == StoreView(st).sessions[s.id := HeadlineOf(s)];
    assert StoreView(after) == Observe(StoreView(st), e);
    LoggedHonest(st, e, after);
  }

  lemma DropSessionHonest(st: Snapshot, id: string)
    requires Honest(st) && id in st.sessions
    ensures Honest(Apply(st, DropSession(id)))
  {
    var after := Apply(st, DropSession(id));
    assert StoreView(after).sessions == StoreView(st).sessions - {id};
    LoggedHonest(st, SessionRemovedEvent(id), after);
  }

  lemma PutWorkspaceHonest(st: Snapshot, workspace: Workspace, clock: Instant)
    requires Honest(st)
    ensures Honest(Apply(st, PutWorkspace(workspace, clock)))
  {
    var w := NormalizeWorkspace(workspace, clock);
    var after := Apply(st, PutWorkspace(workspace, clock));
    assert StoreView(after).workspaces == StoreView(st).workspaces[w.id := Caption(w.path, w.source)];
    LoggedHonest(st, WorkspaceEvent(st.workspaces, w), after);
  }

  lemma EdgeEventTells(v: View, edges: map<string, Edge>, e: Edge)
    requires v.edges.Keys == edges.Keys
    ensures Tells(v, EdgeEvent(edges, e))
    ensures Observe(v, EdgeEvent(edges, e)) == v.(edges := v.edges[e.id := Caption(EdgeText(e), e.source)])
  {
    var event := EdgeEvent(edges, e);
    assert event.summary == EdgeText(e);
    assert Announces(event, IsSpawnRelation(e.relation));
  }

  lemma PutEdgeHonest(st: Snapshot, edge: Edge, clock: Instant)
    requires Honest(st)
    ensures Honest(Apply(st, PutEdge(edge, clock)))
  {
    var e := NormalizeEdge(edge, clock);
    var after := Apply(st, PutEdge(edge, clock));
    EdgeEventTells(StoreView(st), st.edges, e);
    assert StoreView(after).edges == StoreView(st).edges[e.id := Caption(EdgeText(e), e.source)];
    LoggedHonest(st, EdgeEvent(st.edges, e), after);
  }

  /** A write of an edge is announced as a new child exactly when the edge is new and of a spawning relation. */
  lemma SpawnAnnounced(st: Snapshot, edge: Edge, clock: Instant)
    requires edge.id != ""
    ensures var h := Apply(st, PutEdge(edge, clock)).history;
            && |h| == |st.history| + 1 && h[..|st.history|] == st.history
            && h[|st.history|].edgeId == edge.id
            && h[|st.history|].kind ==
                 if edge.id !in st.edges && edge.relation in ["spawned_by", "delegated_by"] then ChildSpawned
                 else EdgeUpserted
  {
  }

  lemma DropEdgeHonest(st: Snapshot, id: string)
    requires Honest(st) && id in st.edges
    ensures Honest(Apply(st, DropEdge(id)))
  {
    var after := Apply(st, DropEdge(id));
    assert StoreView(after).edges == StoreView(st).edges - {id};
    LoggedHonest(st, EdgeRemovedEvent(id), after);
  }

  lemma ApplyKeepsHonest(st: Snapshot, op: Op)
    requires Honest(st)
    ensures Honest(Apply(st, op))
  {
    match op
    case PutSession(session, clock) => if session.id != "" { PutSessionHonest(st, session, clock); }
    case DropSession(id) => if id in st.sessions { DropSessionHonest(st, id); }
    case PutWorkspace(workspace, clock) => PutWorkspaceHonest(st, workspace, clock);
    case PutEdge(edge, clock) => PutEdgeHonest(st, edge, clock);
    case DropEdge(id) => if id in st.edges { DropEdgeHonest(st, id); }
  }

  /**
   * After every serial run, folding the whole event history gives back each session's status,
   * attention and source, each workspace's path and source and each edge's text and source, and
   * every event told the truth when logged.
   */
  lemma {:induction false} ReplayRebuildsStore(ops: seq<Op>)
    ensures Honest(Run(EMPTY, ops))
  {
    if ops != [] {
      ReplayRebuildsStore(ops[..|ops| - 1]);
      ApplyKeepsHonest(Run(EMPTY, ops[..|ops| - 1]), ops[|ops| - 1]);
    }
  }

  lemma RunKeyed(ops: seq<Op>)
    ensures Keyed(Run(EMPTY, ops))
  {
    ReplayRebuildsStore(ops);
  }

  lemma RunOneMore(st: Snapshot, ops: seq<Op>, op: Op)
    ensures Run(st, ops + [op]) == Apply(Run(st, ops), op)
  {
    assert (ops + [op])[..|ops|] == ops;
  }

  predicate AboutSession(e: Event, id: string) {
    && e.sessionId == id
    && (e.kind.SessionStarted? || e.kind.SessionUpserted? || e.kind.StatusChanged? || e.kind.SessionRemoved?)
  }

  /** Index of the last event about a session, or -1. */
  function LastAbout(h: seq<Event>, id: string): (i: int)
    ensures -1 <= i < |h|
    ensures i >= 0 ==> AboutSession(h[i], id)
    ensures forall j :: i < j < |h| ==> !AboutSession(h[j], id)
  {
    if h == [] then -1
    else if AboutSession(h[|h| - 1], id) then |h| - 1
    else LastAbout(h[..|h| - 1], id)
  }

  lemma {:induction false} ReplayIsLastEvent(h: seq<Event>, id: string)
    ensures var i := LastAbout(h, id);
            && (id in Replay(h).sessions <==> i >= 0 && !h[i].kind.SessionRemoved?)
            && (id in Replay(h).sessions ==>
                  Replay(h).sessions[id] == Headline(h[i].status, h[i].attention, h[i].source))
  {
    if h != [] { ReplayIsLastEvent(h[..|h| - 1], id); }
  }

  /** A status-changed event names, as old status, the one its session's previous event carried. */
  lemma StatusChangesChain(ops: seq<Op>, i: nat)
    requires i < |Run(EMPTY, ops).history| && Run(EMPTY, ops).history[i].kind.StatusChanged?
    ensures var h := Run(EMPTY, ops).history;
            var j := LastAbout(h[..i], h[i].sessionId);
            && 0 <= j < i && !h[j].kind.SessionRemoved?
            && h[j].status != h[i].status
            && h[i].summary == h[j].status + " -> " + h[i].status
  {
    ReplayRebuildsStore(ops);
    var h := Run(EMPTY, ops).history;
    assert TellsAt(h, i);
    ReplayIsLastEvent(h[..i], h[i].sessionId);
  }

  // ----- Listing sessions -----

  datatype SessionFilter = SessionFilter(all: bool, status: seq<string>, workspace: string, source: string)

  predicate IsTerminal(status: string) {
    status == STATUS_COMPLETED || status == STATUS_FAILED || status == STATUS_STOPPED
  }

  function AttentionRank(s: Session): int {
    if s.attention == ATTENTION_INPUT || s.attention == ATTENTION_ERROR then 0
    else if s.attention == ATTENTION_REVIEW then 1
    else if s.status == STATUS_WORKING then 2
    else if s.status == STATUS_IDLE then 3
    else 4
  }

  /** Most urgent first: blocked or broken, then reviewable, working, idle, anything else. */
  function Urgency(status: string): int {
    if status in {STATUS_BLOCKED, STATUS_FAILED, STATUS_DISCONNECTED} then 0
    else if status == STATUS_REVIEWABLE then 1
    else if status == STATUS_WORKING then 2
    else if status == STATUS_IDLE then 3
    else 4
  }

  /** A session that leaves its attention to the store is ranked by how urgent its status is. */
  lemma DerivedAttentionRanksByStatus(s: Session, clock: Instant)
    requires s.attention == ""
    ensures AttentionRank(NormalizeSession(s, clock)) == Urgency(NormalizeSession(s, clock).status)
  {
    assert |ATTENTION_INPUT| == 5 && |ATTENTION_ERROR| == 5 && |ATTENTION_REVIEW| == 6 && |ATTENTION_NONE| == 4;
  }

  /** The rank of a session that brings its own attention, and of one that needs none. */
  lemma RankExact(s: Session)
    ensures s.attention in ["input", "error"] ==> AttentionRank(s) == 0
    ensures s.attention == "review" ==> AttentionRank(s) == 1
    ensures s.attention !in ["input", "error", "review"] ==>
              AttentionRank(s) == if s.status == "working" then 2 else if s.status == "idle" then 3 else 4
  {
  }

  predicate MatchesWorkspace(s: Session, query: string) {
    || Contains(s.cwd, query)
    || (exists root | root in s.workspaceRoots :: Contains(root, query))
    || (exists id | id in s.workspaceIds :: Contains(id, query))
  }

  predicate Matches(f: SessionFilter, s: Session) {
    && (f.all || !IsTerminal(s.status))
    && ((forall x | x in f.status :: x == "") || (s.status != "" && s.status in f.status))
    && (f.source == "" || s.source == f.source || s.adapter == f.source)
    && (f.workspace == "" || MatchesWorkspace(s, f.workspace))
  }

  /** The texts a workspace query is looked for in. */
  function WorkspaceTexts(s: Session): seq<string> { [s.cwd] + s.workspaceRoots + s.workspaceIds }

  /**
   * What a listing holds: no ended sessions unless asked for, only the named statuses if any is
   * named, only the named source, and only sessions with the query somewhere in their places.
   */
  lemma ListingExact(f: SessionFilter, s: Session)
    ensures Matches(f, s) <==>
            && (s.status in ["completed", "failed", "stopped"] ==> f.all)
            && ((exists x :: x in f.status && x != "") ==> s.status in f.status && s.status != "")
            && (f.source != "" ==> s.source == f.source || s.adapter == f.source)
            && (f.workspace != "" ==> exists text :: text in WorkspaceTexts(s) && PartOf(f.workspace, text))
  {
    var texts := WorkspaceTexts(s);
    forall text: string ensures Contains(text, f.workspace) <==> PartOf(f.workspace, text) {
      ContainsIsPart(text, f.workspace);
    }
    assert forall text :: text in texts <==> text == s.cwd || text in s.workspaceRoots || text in s.workspaceIds;
  }

  /** The comparator of ListSessions. */
  predicate SessionLess(a: Session, b: Session) {
    if AttentionRank(a) != AttentionRank(b) then AttentionRank(a) < AttentionRank(b)
    else a.lastActivityAt > b.lastActivityAt
  }

  function SortKey(s: Session): Key { Key(AttentionRank(s), s.lastActivityAt) }

  /** `xs` holds each of the given sessions that satisfies `f` once, and nothing else. */
  ghost predicate ListsSessions(xs: seq<Session>, sessions: map<string, Session>, keys: set<string>, f: SessionFilter) {
    forall s: Session :: multiset(xs)[s] ==
      if s.id in keys && s.id in sessions && sessions[s.id] == s && Matches(f, s) then 1 else 0
  }

  /** Most urgent first, and of equally urgent ones the most recently active. */
  ghost predicate MostUrgentFirst(xs: seq<Session>) {
    forall i, j :: 0 <= i < j < |xs| ==>
      || AttentionRank(xs[i]) < AttentionRank(xs[j])
      || (AttentionRank(xs[i]) == AttentionRank(xs[j]) && xs[i].lastActivityAt >= xs[j].lastActivityAt)
  }

  lemma SortedIsMostUrgentFirst(xs: seq<Session>)
    requires Sorted(xs, SessionLess)
    ensures MostUrgentFirst(xs)
  {
    forall i, j | 0 <= i < j < |xs| ensures !SessionLess(xs[j], xs[i]) {
    }
  }

  lemma SessionLessIsStrictWeakOrder()
    ensures StrictWeakOrder(SessionLess)
  {
  }

  lemma KeysOfSorted(xs: seq<Session>)
    requires Sorted(xs, SessionLess)
    ensures Sorted(Keys(xs, SortKey), KeyLess)
  {
    var ks := Keys(xs, SortKey);
    forall i, j | 0 <= i < j < |ks| ensures !KeyLess(ks[j], ks[i]) {
      assert !SessionLess(xs[j], xs[i]);
      assert ks[i] == SortKey(xs[i]) && ks[j] == SortKey(xs[j]);
    }
  }

  /**
   * However the map is iterated and whatever the unstable sort does, two listings of the same
   * store show the same sequence of (attention rank, last activity).
   */
  lemma ListingKeysUnique(xs: seq<Session>, ys: seq<Session>, sessions: map<string, Session>, f: SessionFilter)
    requires ListsSessions(xs, sessions, sessions.Keys, f) && Sorted(xs, SessionLess)
    requires ListsSessions(ys, sessions, sessions.Keys, f) && Sorted(ys, SessionLess)
    ensures Keys(xs, SortKey) == Keys(ys, SortKey)
  {
    assert multiset(xs) == multiset(ys) by {
      assert forall s: Session :: multiset(xs)[s] == multiset(ys)[s];
    }
    KeysOfPermutation(xs, ys, SortKey);
    KeysOfSorted(xs);
    KeysOfSorted(ys);
    SortedKeysUnique(Keys(xs, SortKey), Keys(ys, SortKey));
  }

  // ----- Lineage -----

  predicate InLineage(root: string, s: Session) {
    root == "" || s.id == root || s.rootId == root || s.parentId == root
  }

  /** The sessions Lineage(root) returns, by identifier. */
  function LineageIds(sessions: map<string, Session>, root: string): set<string> {
    set id | id in sessions && InLineage(root, sessions[id])
  }

  predicate EdgeInLineage(sessions: map<string, Session>, root: string, e: Edge) {
    root == "" || e.from in LineageIds(sessions, root) || e.to in LineageIds(sessions, root)
  }

  predicate WorkspaceInLineage(sessions: map<string, Session>, root: string, id: string) {
    exists s | s in LineageIds(sessions, root) :: id in sessions[s].workspaceIds
  }
}
