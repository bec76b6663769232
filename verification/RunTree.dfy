/**
 * Nested `score run` invocations: how parent and root travel through the environment
 * (cmd/score/main.go:348-521), and what Lineage then shows for any interleaving of their writes.
 */
module RunTree {
  import opened Model
  import opened StoreSpec
  import opened Stores
  import opened Inference
  import Text

  const SESSION_VAR := "SCORE_SESSION_ID"
  const PARENT_VAR := "SCORE_PARENT_SESSION_ID"
  const ROOT_VAR := "SCORE_ROOT_SESSION_ID"
  const WORKSPACE_VAR := "SCORE_WORKSPACE_ID"
  const SOURCE_VAR := "SCORE_SOURCE"

  type Environment = map<string, string>

  /** How the command of a run went. */
  datatype Outcome = StartFailed(error: string) | Completed | Stopped | Failed(error: string)

  /**
   * The clock readings of one run: command started, reported running, workspace, edge, command ended,
   * reported ended.
   */
  datatype Times = Times(
    startedAt: Instant, runningAt: Instant, workspaceAt: Instant, edgeAt: Instant, endedAt: Instant,
    reportedAt: Instant)

  /**
   * One invocation: its identifier, explicit flags ("" when absent), its command line and
   * process, how it went and when, and the invocations its command makes in turn.
   */
  datatype Invocation = Invocation(
    id: string, source: string, workspace: string, title: string,
    parentFlag: string, rootFlag: string, command: string, pid: int,
    outcome: Outcome, times: Times, nested: seq<Invocation>)

  predicate Starts(run: Invocation) { !run.outcome.StartFailed? }

  function Getenv(env: Environment, name: string): string {
    if name in env then env[name] else ""
  }

  function ParentOf(run: Invocation, env: Environment): string {
    Or(run.parentFlag, Getenv(env, SESSION_VAR))
  }

  function RootOf(run: Invocation, env: Environment): string {
    Or(run.rootFlag, Or(Getenv(env, ROOT_VAR), Or(ParentOf(run, env), run.id)))
  }

  function WorkspaceId(run: Invocation): string { "workspace:" + run.workspace }

  /** Later assignments override what the parent's environment had. */
  function ChildEnv(run: Invocation, env: Environment): Environment {
    env[SESSION_VAR := run.id][PARENT_VAR := ParentOf(run, env)][ROOT_VAR := RootOf(run, env)]
       [WORKSPACE_VAR := WorkspaceId(run)][SOURCE_VAR := run.source]
  }

  function Children(run: Invocation): seq<Invocation> {
    if Starts(run) then run.nested else []
  }

  /** A given flag decides; without one the environment does; a root falls back on the parent and then on the run. */
  lemma FlagsDecide(run: Invocation, env: Environment)
    ensures run.parentFlag != "" ==> ParentOf(run, env) == run.parentFlag
    ensures run.rootFlag != "" ==> RootOf(run, env) == run.rootFlag
    ensures run.parentFlag == "" ==> ParentOf(run, env) == Getenv(env, "SCORE_SESSION_ID")
    ensures run.rootFlag == "" && Getenv(env, "SCORE_ROOT_SESSION_ID") != "" ==>
              RootOf(run, env) == Getenv(env, "SCORE_ROOT_SESSION_ID")
    ensures run.rootFlag == "" && Getenv(env, "SCORE_ROOT_SESSION_ID") == "" && ParentOf(run, env) != "" ==>
              RootOf(run, env) == ParentOf(run, env)
    ensures run.rootFlag == "" && Getenv(env, "SCORE_ROOT_SESSION_ID") == "" && ParentOf(run, env) == "" ==>
              RootOf(run, env) == run.id
  {
  }

  /** What a command finds in its environment: five variables of the run, and the rest as it was. */
  lemma ChildSees(run: Invocation, env: Environment)
    ensures Getenv(ChildEnv(run, env), "SCORE_SESSION_ID") == run.id
    ensures Getenv(ChildEnv(run, env), "SCORE_ROOT_SESSION_ID") == RootOf(run, env)
    ensures Getenv(ChildEnv(run, env), "SCORE_PARENT_SESSION_ID") == ParentOf(run, env)
    ensures Getenv(ChildEnv(run, env), "SCORE_WORKSPACE_ID") == "workspace:" + run.workspace
    ensures Getenv(ChildEnv(run, env), "SCORE_SOURCE") == run.source
    ensures forall name :: name !in [SESSION_VAR, PARENT_VAR, ROOT_VAR, WORKSPACE_VAR, SOURCE_VAR] ==>
              Getenv(ChildEnv(run, env), name) == Getenv(env, name)
  {
    assert |SESSION_VAR| == 16 && |PARENT_VAR| == 23 && |ROOT_VAR| == 21 && |WORKSPACE_VAR| == 18 && |SOURCE_VAR| == 12;
  }

  /** `r`, run in environment `e`, is `top` run in `env` or nested in it at some depth. */
  ghost predicate Occurs(r: Invocation, e: Environment, top: Invocation, env: Environment)
    decreases top
  {
    (r == top && e == env) || exists c :: c in Children(top) && Occurs(r, e, c, ChildEnv(top, env))
  }

  /** No nested invocation gives --parent or --root, and none lacks an identifier. */
  ghost predicate NestedPlain(top: Invocation)
    decreases top
  {
    top.id != "" && forall c :: c in Children(top) ==> c.parentFlag == "" && c.rootFlag == "" && NestedPlain(c)
  }

  /** Enclosing run of a nested occurrence. */
  ghost predicate EnclosedBy(r: Invocation, e: Environment, p: Invocation, top: Invocation, env: Environment) {
    exists pe :: Occurs(p, pe, top, env) && r in Children(p) && e == ChildEnv(p, pe)
  }

  /**
   * At every depth the root is the outermost run's root, and the parent of a nested run is the
   * run that encloses it.
   */
  lemma {:induction false} LinksPropagate(r: Invocation, e: Environment, top: Invocation, env: Environment)
    requires NestedPlain(top) && Occurs(r, e, top, env)
    ensures r.id != "" && RootOf(r, e) == RootOf(top, env)
    ensures (r == top && e == env) || exists p :: EnclosedBy(r, e, p, top, env) && ParentOf(r, e) == p.id
    decreases top
  {
    if !(r == top && e == env) {
      var env' := ChildEnv(top, env);
      var c :| c in Children(top) && Occurs(r, e, c, env');
      ChildSees(top, env);
      LinksPropagate(r, e, c, env');
      if r == c && e == env' {
        assert Occurs(top, env, top, env);
        assert EnclosedBy(r, e, top, top, env);
      } else {
        var p :| EnclosedBy(r, e, p, c, env') && ParentOf(r, e) == p.id;
        var pe :| Occurs(p, pe, c, env') && r in Children(p) && e == ChildEnv(p, pe);
        assert Occurs(p, pe, top, env);
        assert EnclosedBy(r, e, p, top, env);
      }
    }
  }

  /** Without flags and with a clean environment the outermost run is its own root and has no parent. */
  lemma CleanRoot(top: Invocation, env: Environment)
    requires top.parentFlag == "" && top.rootFlag == "" && SESSION_VAR !in env && ROOT_VAR !in env
    ensures ParentOf(top, env) == "" && RootOf(top, env) == top.id
  {
  }

  // ----- Distinct identifiers -----

  function Ids(run: Invocation): set<string>
    decreases run, 1
  {
    {run.id} + IdsAll(run.nested)
  }

  function IdsAll(runs: seq<Invocation>): set<string>
    decreases runs, 0
  {
    if runs == [] then {} else Ids(runs[0]) + IdsAll(runs[1..])
  }

  predicate DistinctIds(run: Invocation)
    decreases run, 1
  {
    run.id !in IdsAll(run.nested) && DistinctAll(run.nested)
  }

  predicate DistinctAll(runs: seq<Invocation>)
    decreases runs, 0
  {
    runs == [] || (DistinctIds(runs[0]) && DistinctAll(runs[1..]) && Ids(runs[0]) !! IdsAll(runs[1..]))
  }

  lemma {:induction false} MemberIds(runs: seq<Invocation>, c: Invocation)
    requires c in runs
    ensures Ids(c) <= IdsAll(runs)
    ensures DistinctAll(runs) ==> DistinctIds(c)
    decreases |runs|
  {
    if c != runs[0] { MemberIds(runs[1..], c); }
  }

  lemma {:induction false} MembersDisjoint(runs: seq<Invocation>, c: Invocation, d: Invocation)
    requires DistinctAll(runs) && c in runs && d in runs && !(Ids(c) !! Ids(d))
    ensures c == d
    decreases |runs|
  {
    if c == runs[0] && d != runs[0] {
      MemberIds(runs[1..], d);
    } else if d == runs[0] && c != runs[0] {
      MemberIds(runs[1..], c);
    } else if c != runs[0] && d != runs[0] {
      MembersDisjoint(runs[1..], c, d);
    }
  }

  lemma {:induction false} OccursIds(r: Invocation, e: Environment, top: Invocation, env: Environment)
    requires Occurs(r, e, top, env)
    ensures r.id in Ids(top)
    decreases top
  {
    if !(r == top && e == env) {
      var c :| c in Children(top) && Occurs(r, e, c, ChildEnv(top, env));
      OccursIds(r, e, c, ChildEnv(top, env));
      MemberIds(top.nested, c);
    }
  }

  /** With distinct identifiers an identifier names one run, in one environment. */
  lemma {:induction false} OccursUnique(r: Invocation, e: Environment, s: Invocation, f: Environment,
                                        top: Invocation, env: Environment)
    requires DistinctIds(top) && Occurs(r, e, top, env) && Occurs(s, f, top, env) && r.id == s.id
    ensures r == s && e == f
    decreases top
  {
    var env' := ChildEnv(top, env);
    if !(r == top && e == env) {
      var c :| c in Children(top) && Occurs(r, e, c, env');
      OccursIds(r, e, c, env');
      MemberIds(top.nested, c);
      if !(s == top && f == env) {
        var d :| d in Children(top) && Occurs(s, f, d, env');
        OccursIds(s, f, d, env');
        MembersDisjoint(top.nested, c, d);
        OccursUnique(r, e, s, f, c, env');
      }
    } else if !(s == top && f == env) {
      var d :| d in Children(top) && Occurs(s, f, d, env');
      OccursIds(s, f, d, env');
      MemberIds(top.nested, d);
    }
  }

  // ----- The writes -----

  /** The part of upsertRunSession's record that changes during a run. */
  datatype Report = Report(runtimeIds: seq<string>, status: string, detail: string, startedAt: Time,
    activeAt: Time, endedAt: Option<Time>)

  /** upsertRunSession. */
  function RunSession(r: Invocation, parent: string, root: string, rep: Report): Session {
    Session(
      id := r.id, kind := "", adapter := "", title := r.title, summary := "",
      status := rep.status, attention := "", statusDetail := rep.detail, confidence := CONFIDENCE_HIGH,
      source := r.source, cwd := r.workspace, workspaceRoots := [],
      startedAt := rep.startedAt, lastActivityAt := rep.activeAt, endedAt := rep.endedAt,
      parentId := parent, rootId := root,
      runtimeIds := rep.runtimeIds, workspaceIds := [WorkspaceId(r)], process := None)
  }

  /** upsertRunWorkspace. */
  function RunWorkspace(r: Invocation): Workspace {
    Workspace(WorkspaceId(r), "workspace", r.workspace, [r.id], r.source, CONFIDENCE_HIGH, ZERO_TIME)
  }

  /** upsertRunEdge; the store makes up the identifier. */
  function RunEdgeTo(r: Invocation, parent: string): Edge {
    Edge("", r.id, parent, "spawned_by", r.source, CONFIDENCE_HIGH, ZERO_TIME)
  }

  function RunEdge(r: Invocation, e: Environment): Edge {
    RunEdgeTo(r, ParentOf(r, e))
  }

  function RunEdgeId(r: Invocation, e: Environment): string {
    "spawned_by:" + r.id + "->" + ParentOf(r, e)
  }

  /** A write that run `r` makes in environment `e`, at any point of its life. */
  ghost predicate Issues(r: Invocation, e: Environment, op: Op) {
    match op
    case PutSession(s, _) =>
      var rep := Report(s.runtimeIds, s.status, s.statusDetail, s.startedAt, s.lastActivityAt, s.endedAt);
      s == RunSession(r, ParentOf(r, e), RootOf(r, e), rep)
    case PutWorkspace(w, clock) => w == RunWorkspace(r) && clock == r.times.workspaceAt && Starts(r)
    case PutEdge(edge, clock) =>
      edge == RunEdge(r, e) && clock == r.times.edgeAt && ParentOf(r, e) != "" && Starts(r)
    case _ => false
  }

  ghost predicate Issued(op: Op, top: Invocation, env: Environment) {
    exists r, e :: Occurs(r, e, top, env) && Issues(r, e, op)
  }

  /** A write by anybody else that leaves this tree's sessions and edges alone. */
  ghost predicate Elsewhere(op: Op, top: Invocation, env: Environment) {
    match op
    case PutSession(s, _) => s.id !in Ids(top)
    case DropSession(id) => id !in Ids(top)
    case PutWorkspace(_, _) => true
    case PutEdge(edge, clock) =>
      forall r, e :: Occurs(r, e, top, env) ==> NormalizeEdge(edge, clock).id != RunEdgeId(r, e)
    case DropEdge(id) =>
      forall r, e :: Occurs(r, e, top, env) ==> id != RunEdgeId(r, e)
  }

  ghost predicate Allowed(ops: seq<Op>, top: Invocation, env: Environment) {
    forall i :: 0 <= i < |ops| ==> Issued(ops[i], top, env) || Elsewhere(ops[i], top, env)
  }

  ghost predicate SessionWritten(ops: seq<Op>, id: string) {
    exists i :: 0 <= i < |ops| && ops[i].PutSession? && ops[i].session.id == id
  }

  ghost predicate EdgeWritten(ops: seq<Op>, r: Invocation, e: Environment) {
    exists i :: 0 <= i < |ops| && ops[i].PutEdge? && ops[i].edge == RunEdge(r, e)
  }

  lemma SessionWrittenSplit(ops: seq<Op>, id: string)
    requires ops != []
    ensures SessionWritten(ops, id) <==>
            SessionWritten(ops[..|ops| - 1], id) || (ops[|ops| - 1].PutSession? && ops[|ops| - 1].session.id == id)
  {
    var front := ops[..|ops| - 1];
    if SessionWritten(front, id) {
      var i :| 0 <= i < |front| && front[i].PutSession? && front[i].session.id == id;
      assert ops[i] == front[i];
    }
    if SessionWritten(ops, id) {
      var i :| 0 <= i < |ops| && ops[i].PutSession? && ops[i].session.id == id;
      if i < |front| { assert front[i] == ops[i]; }
    }
  }

  lemma EdgeWrittenSplit(ops: seq<Op>, r: Invocation, e: Environment)
    requires ops != []
    ensures EdgeWritten(ops, r, e) <==>
            EdgeWritten(ops[..|ops| - 1], r, e) || (ops[|ops| - 1].PutEdge? && ops[|ops| - 1].edge == RunEdge(r, e))
  {
    var front := ops[..|ops| - 1];
    if EdgeWritten(front, r, e) {
      var i :| 0 <= i < |front| && front[i].PutEdge? && front[i].edge == RunEdge(r, e);
      assert ops[i] == front[i];
    }
    if EdgeWritten(ops, r, e) {
      var i :| 0 <= i < |ops| && ops[i].PutEdge? && ops[i].edge == RunEdge(r, e);
      if i < |front| { assert front[i] == ops[i]; }
    }
  }

  ghost predicate Carries(sessions: map<string, Session>, r: Invocation, e: Environment) {
    r.id in sessions && sessions[r.id].id == r.id
    && sessions[r.id].parentId == ParentOf(r, e) && sessions[r.id].rootId == RootOf(r, e)
  }

  /** One write keeps a run's links, or sets them. */
  lemma WriteKeepsLinks(st: Snapshot, op: Op, r: Invocation, e: Environment, top: Invocation, env: Environment)
    requires DistinctIds(top) && Occurs(r, e, top, env) && r.id != ""
    requires Issued(op, top, env) || Elsewhere(op, top, env)
    requires Carries(st.sessions, r, e) || (op.PutSession? && op.session.id == r.id)
    requires RootOf(r, e) != ""
    ensures Carries(Apply(st, op).sessions, r, e)
  {
    OccursIds(r, e, top, env);
    if Issued(op, top, env) && op.PutSession? && op.session.id == r.id {
      var s, f :| Occurs(s, f, top, env) && Issues(s, f, op);
      OccursUnique(s, f, r, e, top, env);
    }
  }

  lemma {:induction false} SessionsCarryLinks(st: Snapshot, ops: seq<Op>, r: Invocation, e: Environment,
                                              top: Invocation, env: Environment)
    requires NestedPlain(top) && DistinctIds(top) && Occurs(r, e, top, env) && Allowed(ops, top, env)
             && SessionWritten(ops, r.id)
    ensures Carries(Run(st, ops).sessions, r, e)
  {
    var n := |ops| - 1;
    var front := ops[..n];
    LinksPropagate(r, e, top, env);
    SessionWrittenSplit(ops, r.id);
    assert Allowed(front, top, env);
    if SessionWritten(front, r.id) { SessionsCarryLinks(st, front, r, e, top, env); }
    WriteKeepsLinks(Run(st, front), ops[n], r, e, top, env);
  }

  /** No identifier contains the arrow head that separates the two ends in an edge identifier. */
  ghost predicate ArrowFree(top: Invocation) {
    forall id :: id in Ids(top) ==> '>' !in id
  }

  ghost predicate HasEdge(edges: map<string, Edge>, r: Invocation, e: Environment) {
    && RunEdgeId(r, e) in edges
    && edges[RunEdgeId(r, e)].from == r.id && edges[RunEdgeId(r, e)].to == ParentOf(r, e)
    && edges[RunEdgeId(r, e)].relation == "spawned_by" && edges[RunEdgeId(r, e)].confidence == "high"
    && Filled(r.source, edges[RunEdgeId(r, e)].source, "native") && edges[RunEdgeId(r, e)].observedAt == r.times.edgeAt
  }

  lemma RunEdgeNormalizes(r: Invocation, e: Environment, clock: Instant)
    ensures NormalizeEdge(RunEdge(r, e), clock).id == RunEdgeId(r, e)
  {
    assert "spawned_by" + ":" == "spawned_by:";
  }

  lemma WriteKeepsEdge(st: Snapshot, op: Op, r: Invocation, e: Environment, top: Invocation, env: Environment)
    requires ArrowFree(top) && DistinctIds(top) && Occurs(r, e, top, env)
    requires Issued(op, top, env) || Elsewhere(op, top, env)
    requires HasEdge(st.edges, r, e) || (op.PutEdge? && op.edge == RunEdge(r, e))
    ensures HasEdge(Apply(st, op).edges, r, e)
  {
    if op.PutEdge? && op.edge == RunEdge(r, e) { RunEdgeNormalizes(r, e, op.clock); }
    if Issued(op, top, env) && op.PutEdge? {
      var s, f :| Occurs(s, f, top, env) && Issues(s, f, op);
      RunEdgeNormalizes(s, f, op.clock);
      if RunEdgeId(s, f) == RunEdgeId(r, e) {
        OccursIds(s, f, top, env);
        OccursIds(r, e, top, env);
        ArrowInjective("spawned_by:", s.id, ParentOf(s, f), r.id, ParentOf(r, e));
        OccursUnique(s, f, r, e, top, env);
      }
    }
  }

  lemma {:induction false} EdgesStay(st: Snapshot, ops: seq<Op>, r: Invocation, e: Environment, top: Invocation,
                                     env: Environment)
    requires ArrowFree(top) && DistinctIds(top) && Occurs(r, e, top, env)
    requires Allowed(ops, top, env) && EdgeWritten(ops, r, e)
    ensures HasEdge(Run(st, ops).edges, r, e)
  {
    var n := |ops| - 1;
    var front := ops[..n];
    EdgeWrittenSplit(ops, r, e);
    assert Allowed(front, top, env);
    if EdgeWritten(front, r, e) { EdgesStay(st, front, r, e, top, env); }
    WriteKeepsEdge(Run(st, front), ops[n], r, e, top, env);
  }

  /**
   * However the writes of a run tree interleave, with each other and with writes elsewhere, and
   * at any moment: Lineage of the outermost run's root contains every session of the tree that
   * has been written and every spawned_by edge whose child session has been.
   */
  lemma LineageShowsRunTree(st: Snapshot, ops: seq<Op>, r: Invocation, e: Environment, top: Invocation,
                            env: Environment)
    requires NestedPlain(top) && DistinctIds(top) && ArrowFree(top)
    requires Occurs(r, e, top, env) && Allowed(ops, top, env) && SessionWritten(ops, r.id)
    ensures var after := Run(st, ops);
            && Carries(after.sessions, r, e)
            && r.id in LineageIds(after.sessions, RootOf(top, env))
            && (EdgeWritten(ops, r, e) ==>
                  && HasEdge(after.edges, r, e)
                  && EdgeInLineage(after.sessions, RootOf(top, env), after.edges[RunEdgeId(r, e)]))
  {
    SessionsCarryLinks(st, ops, r, e, top, env);
    LinksPropagate(r, e, top, env);
    if EdgeWritten(ops, r, e) { EdgesStay(st, ops, r, e, top, env); }
  }

  // ----- The command itself -----

  /** The flag-then-environment resolution of runObservedCommand. */
  method Resolve(run: Invocation, env: Environment) returns (parent: string, root: string)
    ensures parent == ParentOf(run, env) && root == RootOf(run, env)
  {
    parent, root := run.parentFlag, run.rootFlag;
    if parent == "" {
      parent := Getenv(env, SESSION_VAR);
    }
    if root == "" {
      root := Getenv(env, ROOT_VAR);
    }
    if root == "" {
      if parent != "" {
        root := parent;
      } else {
        root := run.id;
      }
    }
  }

  // ----- A whole tree, run to completion -----

  ghost predicate IssuedAt(ops: seq<Op>, i: nat, top: Invocation, env: Environment)
    requires i < |ops|
  {
    Issued(ops[i], top, env)
  }

  ghost predicate AllIssued(ops: seq<Op>, top: Invocation, env: Environment) {
    forall i :: 0 <= i < |ops| ==> IssuedAt(ops, i, top, env)
  }

  /** The run's session was written, and its edge if it has a parent and its command started. */
  ghost predicate Written(ops: seq<Op>, r: Invocation, e: Environment) {
    SessionWritten(ops, r.id) && (Starts(r) && ParentOf(r, e) != "" ==> EdgeWritten(ops, r, e))
  }

  ghost predicate Covers(ops: seq<Op>, top: Invocation, env: Environment) {
    forall r, e :: Occurs(r, e, top, env) ==> Written(ops, r, e)
  }

  lemma WrittenGrows(ops: seq<Op>, more: seq<Op>, r: Invocation, e: Environment)
    requires Written(ops, r, e) || Written(more, r, e)
    ensures Written(ops + more, r, e)
  {
    var all := ops + more;
    assert forall i :: 0 <= i < |ops| ==> all[i] == ops[i];
    assert forall i :: 0 <= i < |more| ==> all[|ops| + i] == more[i];
    assert SessionWritten(all, r.id) by {
      if Written(ops, r, e) {
        var i :| 0 <= i < |ops| && ops[i].PutSession? && ops[i].session.id == r.id;
        assert all[i] == ops[i];
      } else {
        var i :| 0 <= i < |more| && more[i].PutSession? && more[i].session.id == r.id;
        assert all[|ops| + i] == more[i];
      }
    }
    if Starts(r) && ParentOf(r, e) != "" {
      if Written(ops, r, e) {
        var i :| 0 <= i < |ops| && ops[i].PutEdge? && ops[i].edge == RunEdge(r, e);
        assert all[i] == ops[i];
      } else {
        var i :| 0 <= i < |more| && more[i].PutEdge? && more[i].edge == RunEdge(r, e);
        assert all[|ops| + i] == more[i];
      }
    }
  }

  lemma CoversGrows(ops: seq<Op>, more: seq<Op>, top: Invocation, env: Environment)
    requires Covers(ops, top, env) || Covers(more, top, env)
    ensures Covers(ops + more, top, env)
  {
    forall r, e | Occurs(r, e, top, env) ensures Written(ops + more, r, e) {
      WrittenGrows(ops, more, r, e);
    }
  }

  lemma NestedIssued(ops: seq<Op>, c: Invocation, top: Invocation, env: Environment)
    requires c in Children(top) && AllIssued(ops, c, ChildEnv(top, env))
    ensures AllIssued(ops, top, env)
  {
    forall i | 0 <= i < |ops| ensures IssuedAt(ops, i, top, env) {
      assert IssuedAt(ops, i, c, ChildEnv(top, env));
      var r, e :| Occurs(r, e, c, ChildEnv(top, env)) && Issues(r, e, ops[i]);
      assert Occurs(r, e, top, env);
    }
  }

  /** The run itself and its first `n` children are covered. */
  ghost predicate CoversUpTo(ops: seq<Op>, top: Invocation, env: Environment, n: nat)
    requires n <= |Children(top)|
  {
    Written(ops, top, env) && forall j :: 0 <= j < n ==> Covers(ops, Children(top)[j], ChildEnv(top, env))
  }

  lemma CoversNext(ops: seq<Op>, more: seq<Op>, top: Invocation, env: Environment, n: nat)
    requires n < |Children(top)| && CoversUpTo(ops, top, env, n) && Covers(more, Children(top)[n], ChildEnv(top, env))
    ensures CoversUpTo(ops + more, top, env, n + 1)
  {
    WrittenGrows(ops, more, top, env);
    forall j | 0 <= j < n + 1 ensures Covers(ops + more, Children(top)[j], ChildEnv(top, env)) {
      CoversGrows(ops, more, Children(top)[j], ChildEnv(top, env));
    }
  }

  lemma CoversWhole(ops: seq<Op>, more: seq<Op>, top: Invocation, env: Environment)
    requires CoversUpTo(ops, top, env, |Children(top)|)
    ensures Covers(ops + more, top, env)
  {
    forall r, e | Occurs(r, e, top, env) ensures Written(ops + more, r, e) {
      if !(r == top && e == env) {
        var c :| c in Children(top) && Occurs(r, e, c, ChildEnv(top, env));
        var j :| 0 <= j < |Children(top)| && Children(top)[j] == c;
        assert Covers(ops, Children(top)[j], ChildEnv(top, env));
      }
      WrittenGrows(ops, more, r, e);
    }
  }

  lemma AllIssuedJoin(a: seq<Op>, b: seq<Op>, top: Invocation, env: Environment)
    requires AllIssued(a, top, env) && AllIssued(b, top, env)
    ensures AllIssued(a + b, top, env)
  {
    forall i | 0 <= i < |a + b| ensures IssuedAt(a + b, i, top, env) {
      if i < |a| { assert IssuedAt(a, i, top, env); } else { assert IssuedAt(b, i - |a|, top, env); }
    }
  }

  lemma IssuedBySelf(op: Op, top: Invocation, env: Environment)
    requires Issues(top, env, op)
    ensures AllIssued([op], top, env)
  {
    assert Occurs(top, env, top, env);
  }

  /** upsertRunSession's report when the command has started, or has failed to. */
  function StartReport(run: Invocation): Report {
    if Starts(run) then
      Report(["process:" + Text.Itoa(run.pid)], STATUS_WORKING, "running: " + run.command,
             run.times.startedAt, run.times.runningAt, None)
    else
      Report([], STATUS_FAILED, "start failed: " + run.outcome.error,
             run.times.startedAt, run.times.runningAt, Some(run.times.endedAt))
  }

  function EndStatus(outcome: Outcome): string {
    match outcome
    case StartFailed(_) => STATUS_FAILED
    case Completed => STATUS_COMPLETED
    case Stopped => STATUS_STOPPED
    case Failed(_) => STATUS_FAILED
  }

  function EndDetail(run: Invocation): string {
    match run.outcome
    case StartFailed(error) => "start failed: " + error
    case Completed => "completed: " + run.command
    case Stopped => "stopped: " + run.command
    case Failed(error) => "failed: " + error
  }

  function EndReport(run: Invocation): Report {
    Report(["process:" + Text.Itoa(run.pid)], EndStatus(run.outcome), EndDetail(run),
           run.times.startedAt, run.times.reportedAt, Some(run.times.endedAt))
  }

  function EndOp(run: Invocation, parent: string, root: string): Op {
    PutSession(RunSession(run, parent, root, EndReport(run)), run.times.reportedAt)
  }

  /** What a run writes when its command starts, or fails to. */
  function StartOps(run: Invocation, parent: string, root: string): seq<Op> {
    [PutSession(RunSession(run, parent, root, StartReport(run)), run.times.runningAt)]
    + (if Starts(run) then
         [PutWorkspace(RunWorkspace(run), run.times.workspaceAt)]
         + (if parent != "" then [PutEdge(RunEdgeTo(run, parent), run.times.edgeAt)] else [])
       else [])
  }

  lemma StartOpsProgress(run: Invocation, env: Environment)
    ensures RunProgress(StartOps(run, ParentOf(run, env), RootOf(run, env)), run, env, 0)
  {
    var ops := StartOps(run, ParentOf(run, env), RootOf(run, env));
    assert Occurs(run, env, run, env);
    assert ops[0].PutSession? && ops[0].session.id == run.id;
    if Starts(run) && ParentOf(run, env) != "" {
      assert ops[2].PutEdge? && ops[2].edge == RunEdge(run, env);
    }
    forall i | 0 <= i < |ops| ensures IssuedAt(ops, i, run, env) {
      assert Issues(run, env, ops[i]);
    }
  }

  /** A run and its first `n` children have written what they should, and nothing else. */
  ghost predicate RunProgress(ops: seq<Op>, run: Invocation, env: Environment, n: nat) {
    n <= |Children(run)| && AllIssued(ops, run, env) && CoversUpTo(ops, run, env, n)
  }

  lemma RunProgressNext(ops: seq<Op>, more: seq<Op>, run: Invocation, env: Environment, n: nat)
    requires RunProgress(ops, run, env, n) && n < |Children(run)|
    requires AllIssued(more, Children(run)[n], ChildEnv(run, env)) && Covers(more, Children(run)[n], ChildEnv(run, env))
    ensures RunProgress(ops + more, run, env, n + 1)
  {
    NestedIssued(more, Children(run)[n], run, env);
    AllIssuedJoin(ops, more, run, env);
    CoversNext(ops, more, run, env, n);
  }

  lemma RunProgressDone(ops: seq<Op>, run: Invocation, env: Environment)
    requires RunProgress(ops, run, env, |Children(run)|)
    ensures AllIssued(ops, run, env) && Covers(ops, run, env)
    ensures var all := ops + [EndOp(run, ParentOf(run, env), RootOf(run, env))];
            AllIssued(all, run, env) && Covers(all, run, env)
  {
    var last := [EndOp(run, ParentOf(run, env), RootOf(run, env))];
    IssuedBySelf(last[0], run, env);
    AllIssuedJoin(ops, last, run, env);
    CoversWhole(ops, last, run, env);
    CoversWhole(ops, [], run, env);
    assert ops + [] == ops;
  }

  /** The writes of a run and of everything nested in it, the nested runs in turn. */
  function TreeOps(run: Invocation, env: Environment): seq<Op>
    decreases run, 1
  {
    var start := StartOps(run, ParentOf(run, env), RootOf(run, env));
    if Starts(run) then
      start + NestedOps(run.nested, ChildEnv(run, env)) + [EndOp(run, ParentOf(run, env), RootOf(run, env))]
    else start
  }

  function NestedOps(runs: seq<Invocation>, env: Environment): seq<Op>
    decreases runs, 0
  {
    if runs == [] then [] else TreeOps(runs[0], env) + NestedOps(runs[1..], env)
  }

  lemma {:induction false} NestedProgress(run: Invocation, env: Environment, ops: seq<Op>, n: nat)
    requires Starts(run) && n <= |run.nested| && RunProgress(ops, run, env, n)
    ensures RunProgress(ops + NestedOps(run.nested[n..], ChildEnv(run, env)), run, env, |run.nested|)
    decreases run, 0, |run.nested| - n
  {
    var env' := ChildEnv(run, env);
    if n == |run.nested| {
      assert ops + NestedOps(run.nested[n..], env') == ops;
    } else {
      TreeOpsComplete(run.nested[n], env');
      var more, rest := TreeOps(run.nested[n], env'), NestedOps(run.nested[n + 1..], env');
      RunProgressNext(ops, more, run, env, n);
      NestedProgress(run, env, ops + more, n + 1);
      assert NestedOps(run.nested[n..], env') == more + rest by {
        assert run.nested[n..][1..] == run.nested[n + 1..];
      }
      assert (ops + more) + rest == ops + (more + rest);
    }
  }

  /** These are writes of the tree only, and they write every session and edge it should have. */
  lemma {:induction false} TreeOpsComplete(run: Invocation, env: Environment)
    ensures AllIssued(TreeOps(run, env), run, env) && Covers(TreeOps(run, env), run, env)
    decreases run, 1
  {
    var start := StartOps(run, ParentOf(run, env), RootOf(run, env));
    StartOpsProgress(run, env);
    if Starts(run) {
      NestedProgress(run, env, start, 0);
      assert run.nested[0..] == run.nested;
      RunProgressDone(start + NestedOps(run.nested, ChildEnv(run, env)), run, env);
    } else {
      RunProgressDone(start, run, env);
    }
  }

  lemma Assoc(a: seq<Op>, b: seq<Op>, c: seq<Op>)
    ensures (a + b) + c == a + (b + c)
  {
  }

  lemma NestedOpsHead(runs: seq<Invocation>, env: Environment)
    requires runs != []
    ensures NestedOps(runs, env) == TreeOps(runs[0], env) + NestedOps(runs[1..], env)
  {
  }

  lemma TreeOpsParts(run: Invocation, env: Environment)
    requires Starts(run)
    ensures TreeOps(run, env)
            == StartOps(run, ParentOf(run, env), RootOf(run, env))
               + NestedOps(run.nested, ChildEnv(run, env))
               + [EndOp(run, ParentOf(run, env), RootOf(run, env))]
  {
  }

  // ----- Any schedule -----

  /** Every run of the tree is shown, with its links, by Lineage of the outermost run's root. */
  ghost predicate Shown(st: Snapshot, r: Invocation, e: Environment, root: string) {
    && Carries(st.sessions, r, e)
    && r.id in LineageIds(st.sessions, root)
    && (Starts(r) && ParentOf(r, e) != "" ==>
          HasEdge(st.edges, r, e) && EdgeInLineage(st.sessions, root, st.edges[RunEdgeId(r, e)]))
  }

  lemma WrittenIn(ops: seq<Op>, all: seq<Op>, r: Invocation, e: Environment)
    requires Written(ops, r, e) && forall op :: op in ops ==> op in all
    ensures Written(all, r, e)
  {
    var i :| 0 <= i < |ops| && ops[i].PutSession? && ops[i].session.id == r.id;
    assert ops[i] in all;
    var j :| 0 <= j < |all| && all[j] == ops[i];
    if Starts(r) && ParentOf(r, e) != "" {
      var k :| 0 <= k < |ops| && ops[k].PutEdge? && ops[k].edge == RunEdge(r, e);
      assert ops[k] in all;
      var l :| 0 <= l < |all| && all[l] == ops[k];
    }
  }

  /**
   * Once all of a tree's writes have happened, in any order and mixed with any writes
   * elsewhere, Lineage of the outermost run's root shows every run and every edge of the tree.
   */
  lemma AnyScheduleShowsTree(st: Snapshot, ops: seq<Op>, r: Invocation, e: Environment, top: Invocation,
                             env: Environment)
    requires NestedPlain(top) && DistinctIds(top) && ArrowFree(top) && Occurs(r, e, top, env)
    requires Allowed(ops, top, env) && forall op :: op in TreeOps(top, env) ==> op in ops
    ensures Shown(Run(st, ops), r, e, RootOf(top, env))
  {
    TreeOpsComplete(top, env);
    assert Written(TreeOps(top, env), r, e);
    WrittenIn(TreeOps(top, env), ops, r, e);
    LineageShowsRunTree(st, ops, r, e, top, env);
  }

  // ----- How a run ends -----

  /** The first report of a run. */
  function FirstOp(r: Invocation, e: Environment): Op {
    PutSession(RunSession(r, ParentOf(r, e), RootOf(r, e), StartReport(r)), r.times.runningAt)
  }

  /** The last report of a run: how its command ended, or that it did not start. */
  function FinalOp(r: Invocation, e: Environment): Op {
    if Starts(r) then EndOp(r, ParentOf(r, e), RootOf(r, e))
    else FirstOp(r, e)
  }

  predicate Touches(op: Op, id: string) {
    (op.PutSession? && op.session.id == id) || op == DropSession(id)
  }

  ghost predicate Untouched(ops: seq<Op>, id: string) {
    forall op :: op in ops ==> !Touches(op, id)
  }

  ghost predicate UntouchedAfter(ops: seq<Op>, i: nat, id: string) {
    forall j :: i < j < |ops| ==> !Touches(ops[j], id)
  }

  /** The write `op` is there, and no later one touches session `id`. */
  ghost predicate LastWord(ops: seq<Op>, op: Op, id: string) {
    exists i :: 0 <= i < |ops| && ops[i] == op && UntouchedAfter(ops, i, id)
  }

  ghost predicate EndsLast(ops: seq<Op>, r: Invocation, e: Environment) {
    LastWord(ops, FinalOp(r, e), r.id)
  }

  lemma LastWordJoin(a: seq<Op>, b: seq<Op>, op: Op, id: string)
    requires LastWord(b, op, id) || (LastWord(a, op, id) && Untouched(b, id))
    ensures LastWord(a + b, op, id)
  {
    if LastWord(b, op, id) {
      var i :| 0 <= i < |b| && b[i] == op && UntouchedAfter(b, i, id);
      assert (a + b)[|a| + i] == op && UntouchedAfter(a + b, |a| + i, id);
    } else {
      var i :| 0 <= i < |a| && a[i] == op && UntouchedAfter(a, i, id);
      assert (a + b)[i] == op && UntouchedAfter(a + b, i, id);
    }
  }

  lemma LastWordSnoc(ops: seq<Op>, op: Op, id: string)
    ensures LastWord(ops + [op], op, id)
  {
    assert (ops + [op])[|ops|] == op && UntouchedAfter(ops + [op], |ops|, id);
  }

  lemma TreeTouchesOwn(run: Invocation, env: Environment, id: string)
    requires id !in Ids(run)
    ensures Untouched(TreeOps(run, env), id)
  {
    var ops := TreeOps(run, env);
    TreeOpsComplete(run, env);
    forall i | 0 <= i < |ops| ensures !Touches(ops[i], id) {
      assert IssuedAt(ops, i, run, env);
      var s, f :| Occurs(s, f, run, env) && Issues(s, f, ops[i]);
      OccursIds(s, f, run, env);
    }
  }

  lemma {:induction false} NestedTouchOwn(runs: seq<Invocation>, env: Environment, id: string)
    requires id !in IdsAll(runs)
    ensures Untouched(NestedOps(runs, env), id)
    decreases |runs|
  {
    if runs != [] {
      TreeTouchesOwn(runs[0], env, id);
      NestedTouchOwn(runs[1..], env, id);
      NestedOpsHead(runs, env);
    }
  }

  lemma OwnEndsLast(run: Invocation, env: Environment)
    ensures EndsLast(TreeOps(run, env), run, env)
  {
    if Starts(run) {
      var start := StartOps(run, ParentOf(run, env), RootOf(run, env));
      TreeOpsParts(run, env);
      LastWordSnoc(start + NestedOps(run.nested, ChildEnv(run, env)), FinalOp(run, env), run.id);
    } else {
      LastWordSnoc([], FinalOp(run, env), run.id);
      assert TreeOps(run, env) == [] + [FinalOp(run, env)];
    }
  }

  lemma LastWordNested(run: Invocation, env: Environment, op: Op, id: string)
    requires Starts(run) && id != run.id && LastWord(NestedOps(run.nested, ChildEnv(run, env)), op, id)
    ensures LastWord(TreeOps(run, env), op, id)
  {
    var start := StartOps(run, ParentOf(run, env), RootOf(run, env));
    var nested := NestedOps(run.nested, ChildEnv(run, env));
    TreeOpsParts(run, env);
    LastWordJoin(start, nested, op, id);
    LastWordJoin(start + nested, [EndOp(run, ParentOf(run, env), RootOf(run, env))], op, id);
  }

  /** One command after the other, every run of the tree has the last word on its own session. */
  lemma {:induction false} TreeEndsLast(run: Invocation, env: Environment, r: Invocation, e: Environment)
    requires DistinctIds(run) && Occurs(r, e, run, env)
    ensures EndsLast(TreeOps(run, env), r, e)
    decreases run, 1
  {
    if r == run && e == env {
      OwnEndsLast(run, env);
    } else {
      var env' := ChildEnv(run, env);
      var c :| c in Children(run) && Occurs(r, e, c, env');
      NestedEndsLast(run.nested, env', c, r, e);
      OccursIds(r, e, c, env');
      MemberIds(run.nested, c);
      LastWordNested(run, env, FinalOp(r, e), r.id);
    }
  }

  lemma {:induction false} NestedEndsLast(
    runs: seq<Invocation>, env: Environment, c: Invocation, r: Invocation, e: Environment)
    requires DistinctAll(runs) && c in runs && Occurs(r, e, c, env)
    ensures EndsLast(NestedOps(runs, env), r, e)
    decreases runs, 0
  {
    if c == runs[0] {
      OccursIds(r, e, c, env);
      TreeEndsLast(c, env, r, e);
      NestedTouchOwn(runs[1..], env, r.id);
    } else {
      NestedEndsLast(runs[1..], env, c, r, e);
    }
    NestedOpsHead(runs, env);
    LastWordJoin(TreeOps(runs[0], env), NestedOps(runs[1..], env), FinalOp(r, e), r.id);
  }

  /** The session of a run, as far as it does not change while the command runs; links aside. */
  ghost predicate Identifies(s: Session, r: Invocation) {
    && s.id == r.id && s.kind == "session" && s.adapter == "" && s.title == r.title && s.summary == ""
    && s.confidence == "high" && Filled(r.source, s.source, "native")
    && s.cwd == r.workspace && s.workspaceRoots == [] && s.workspaceIds == ["workspace:" + r.workspace]
    && s.startedAt == r.times.startedAt && s.process == None
  }

  /** The session says how the command ended. */
  ghost predicate EndsAs(s: Session, outcome: Outcome, command: string) {
    match outcome
    case Completed => s.status == "completed" && s.statusDetail == "completed: " + command && s.attention == "none"
    case Stopped => s.status == "stopped" && s.statusDetail == "stopped: " + command && s.attention == "none"
    case Failed(error) => s.status == "failed" && s.statusDetail == "failed: " + error && s.attention == "error"
    case StartFailed(error) =>
      s.status == "failed" && s.statusDetail == "start failed: " + error && s.attention == "error"
  }

  /** The session says how the command ended, when it started and ended, and which process it was. */
  ghost predicate Finished(sessions: map<string, Session>, r: Invocation) {
    && r.id in sessions
    && Identifies(sessions[r.id], r) && EndsAs(sessions[r.id], r.outcome, r.command)
    && sessions[r.id].endedAt == Some(r.times.endedAt)
    && sessions[r.id].lastActivityAt == (if Starts(r) then r.times.reportedAt else r.times.runningAt)
    && sessions[r.id].runtimeIds == if Starts(r) then ["process:" + Text.Itoa(r.pid)] else []
  }

  /** The session says that the command is running. */
  ghost predicate Running(sessions: map<string, Session>, r: Invocation) {
    && r.id in sessions
    && Identifies(sessions[r.id], r)
    && sessions[r.id].status == "working" && sessions[r.id].statusDetail == "running: " + r.command
    && sessions[r.id].attention == "none" && sessions[r.id].endedAt == None
    && sessions[r.id].lastActivityAt == r.times.runningAt
    && sessions[r.id].runtimeIds == ["process:" + Text.Itoa(r.pid)]
  }

  /** In listings every finished run counts as ended, and just the failed ones ask for attention. */
  lemma FinishedListing(sessions: map<string, Session>, r: Invocation)
    requires Finished(sessions, r)
    ensures !Matches(SessionFilter(false, [], "", ""), sessions[r.id])
    ensures AttentionRank(sessions[r.id]) == if r.outcome.Failed? || r.outcome.StartFailed? then 0 else 4
  {
    ListingExact(SessionFilter(false, [], "", ""), sessions[r.id]);
    RankExact(sessions[r.id]);
    assert |"completed"| == 9 && |"stopped"| == 7 && |"failed"| == 6 && |"none"| == 4 && |"idle"| == 4;
    assert "stopped"[0] != "working"[0];
  }

  ghost predicate Holds(sessions: map<string, Session>, s: Session) {
    s.id in sessions && sessions[s.id] == s
  }

  lemma UntouchedStays(st: Snapshot, op: Op, s: Session)
    requires Holds(st.sessions, s) && !Touches(op, s.id)
    ensures Holds(Apply(st, op).sessions, s)
  {
  }

  lemma PutHolds(st: Snapshot, op: Op)
    requires op.PutSession? && op.session.id != ""
    ensures Holds(Apply(st, op).sessions, NormalizeSession(op.session, op.clock))
  {
  }

  lemma {:induction false} LastWordStays(st: Snapshot, ops: seq<Op>, i: nat, s: Session)
    requires i < |ops| && ops[i].PutSession? && s.id != "" && s == NormalizeSession(ops[i].session, ops[i].clock)
    requires UntouchedAfter(ops, i, s.id)
    ensures Holds(Run(st, ops).sessions, s)
  {
    var n := |ops| - 1;
    if i == n {
      NormalizeCompletes(ops[n].session, ops[n].clock);
      PutHolds(Run(st, ops[..n]), ops[n]);
    } else {
      LastWordStays(st, ops[..n], i, s);
      UntouchedStays(Run(st, ops[..n]), ops[n], s);
    }
  }

  /** In any schedule that touches a run's session no more after its last report, the session stays as reported. */
  lemma FinalReportStays(st: Snapshot, ops: seq<Op>, r: Invocation, e: Environment)
    requires r.id != "" && EndsLast(ops, r, e)
    ensures Finished(Run(st, ops).sessions, r)
  {
    var op := FinalOp(r, e);
    var i :| 0 <= i < |ops| && ops[i] == op && UntouchedAfter(ops, i, r.id);
    LastWordStays(st, ops, i, NormalizeSession(op.session, op.clock));
    SessionDefaultsExact(op.session, op.clock);
  }

  /** Until another write touches its session, a run whose command started is shown as running. */
  lemma RunningReportStays(st: Snapshot, ops: seq<Op>, r: Invocation, e: Environment)
    requires r.id != "" && Starts(r) && LastWord(ops, FirstOp(r, e), r.id)
    ensures Running(Run(st, ops).sessions, r)
  {
    var op := FirstOp(r, e);
    var i :| 0 <= i < |ops| && ops[i] == op && UntouchedAfter(ops, i, r.id);
    LastWordStays(st, ops, i, NormalizeSession(op.session, op.clock));
    SessionDefaultsExact(op.session, op.clock);
  }

  lemma {:induction false} NestedIdsPrefix(runs: seq<Invocation>, n: nat)
    requires n <= |runs|
    ensures IdsAll(runs[..n]) <= IdsAll(runs)
    decreases |runs|
  {
    if n > 0 {
      NestedIdsPrefix(runs[1..], n - 1);
      assert runs[..n][0] == runs[0] && runs[..n][1..] == runs[1..][..n - 1];
    }
  }

  lemma {:induction false} NestedOpsPrefix(runs: seq<Invocation>, env: Environment, n: nat)
    requires n <= |runs|
    ensures NestedOps(runs[..n], env) <= NestedOps(runs, env)
    decreases |runs|
  {
    if n > 0 {
      NestedOpsPrefix(runs[1..], env, n - 1);
      NestedOpsHead(runs, env);
      NestedOpsHead(runs[..n], env);
      assert runs[..n][0] == runs[0] && runs[..n][1..] == runs[1..][..n - 1];
    }
  }

  /** While its command makes its nested runs, one after the other, the run is shown as running. */
  lemma RunningWhileNested(st: Snapshot, run: Invocation, env: Environment, n: nat)
    requires run.id != "" && DistinctIds(run) && Starts(run) && n <= |run.nested|
    ensures var ops := StartOps(run, ParentOf(run, env), RootOf(run, env))
                       + NestedOps(run.nested[..n], ChildEnv(run, env));
            ops <= TreeOps(run, env) && Running(Run(st, ops).sessions, run)
  {
    NestedOpsPrefix(run.nested, ChildEnv(run, env), n);
    TreeOpsParts(run, env);
    var ops := StartOps(run, ParentOf(run, env), RootOf(run, env));
    assert ops[0] == FirstOp(run, env) && UntouchedAfter(ops, 0, run.id);
    NestedIdsPrefix(run.nested, n);
    NestedTouchOwn(run.nested[..n], ChildEnv(run, env), run.id);
    LastWordJoin(ops, NestedOps(run.nested[..n], ChildEnv(run, env)), FirstOp(run, env), run.id);
    RunningReportStays(st, ops + NestedOps(run.nested[..n], ChildEnv(run, env)), run, env);
  }

  // ----- The workspaces of a tree -----

  /** A workspace record as run `q` leaves it. */
  ghost predicate DescribesWorkspace(w: Workspace, q: Invocation) {
    && w.id == "workspace:" + q.workspace && w.path == q.workspace && w.kind == "workspace"
    && w.sessionIds == [q.id] && w.confidence == "high" && Filled(q.source, w.source, "native")
    && w.observedAt == q.times.workspaceAt
  }

  /** The workspace of run `r` is there, as some run of the tree in the same directory left it. */
  ghost predicate Placed(workspaces: map<string, Workspace>, r: Invocation, top: Invocation, env: Environment) {
    && WorkspaceId(r) in workspaces
    && exists q, f :: Occurs(q, f, top, env) && q.workspace == r.workspace
                      && DescribesWorkspace(workspaces[WorkspaceId(r)], q)
  }

  function PlaceOp(r: Invocation): Op { PutWorkspace(RunWorkspace(r), r.times.workspaceAt) }

  /** A write that comes from the tree or is to another workspace. */
  ghost predicate LeavesWorkspace(op: Op, r: Invocation, top: Invocation, env: Environment) {
    op.PutWorkspace? ==> Issued(op, top, env) || NormalizeWorkspace(op.workspace, op.clock).id != WorkspaceId(r)
  }

  lemma RunWorkspaceStored(q: Invocation)
    ensures DescribesWorkspace(NormalizeWorkspace(RunWorkspace(q), q.times.workspaceAt), q)
    ensures NormalizeWorkspace(RunWorkspace(q), q.times.workspaceAt).id == WorkspaceId(q)
  {
  }

  lemma WriteKeepsPlace(st: Snapshot, op: Op, r: Invocation, e: Environment, top: Invocation, env: Environment)
    requires Occurs(r, e, top, env) && LeavesWorkspace(op, r, top, env)
    requires Placed(st.workspaces, r, top, env) || op == PlaceOp(r)
    ensures Placed(Apply(st, op).workspaces, r, top, env)
  {
    if op == PlaceOp(r) {
      RunWorkspaceStored(r);
    } else if op.PutWorkspace? && NormalizeWorkspace(op.workspace, op.clock).id == WorkspaceId(r) {
      var q, f :| Occurs(q, f, top, env) && Issues(q, f, op);
      RunWorkspaceStored(q);
      TailInjective("workspace:", q.workspace, r.workspace);
    }
  }

  /** Whatever the schedule, a started run's workspace is there once written, unless somebody else writes it. */
  lemma {:induction false} PlaceStays(st: Snapshot, ops: seq<Op>, r: Invocation, e: Environment, top: Invocation,
                                      env: Environment)
    requires Occurs(r, e, top, env) && PlaceOp(r) in ops && forall op :: op in ops ==> LeavesWorkspace(op, r, top, env)
    ensures Placed(Run(st, ops).workspaces, r, top, env)
  {
    var n := |ops| - 1;
    var front, op := ops[..n], ops[n];
    assert ops == front + [op];
    if op != PlaceOp(r) { PlaceStays(st, front, r, e, top, env); }
    WriteKeepsPlace(Run(st, front), op, r, e, top, env);
  }

  /** Every started run of the tree writes its workspace. */
  lemma {:induction false} TreeWritesPlace(run: Invocation, env: Environment, r: Invocation, e: Environment)
    requires Occurs(r, e, run, env) && Starts(r)
    ensures PlaceOp(r) in TreeOps(run, env)
    decreases run, 1
  {
    if r == run && e == env {
      var start := StartOps(run, ParentOf(run, env), RootOf(run, env));
      assert start[1] == PlaceOp(r);
      TreeOpsParts(run, env);
    } else {
      var c :| c in Children(run) && Occurs(r, e, c, ChildEnv(run, env));
      NestedWritesPlace(run.nested, ChildEnv(run, env), c, r, e);
      TreeOpsParts(run, env);
    }
  }

  lemma {:induction false} NestedWritesPlace(
    runs: seq<Invocation>, env: Environment, c: Invocation, r: Invocation, e: Environment)
    requires c in runs && Occurs(r, e, c, env) && Starts(r)
    ensures PlaceOp(r) in NestedOps(runs, env)
    decreases runs, 0
  {
    NestedOpsHead(runs, env);
    if c == runs[0] {
      TreeWritesPlace(c, env, r, e);
    } else {
      NestedWritesPlace(runs[1..], env, c, r, e);
    }
  }

  // ----- The command and what it runs, one after the other -----

  method ReportStart(store: Store, run: Invocation, parent: string, root: string)
    requires store.Valid()
    modifies store
    ensures store.Valid() && store.trace == old(store.trace) + StartOps(run, parent, root)
  {
    if !Starts(run) {
      var failed := Report([], STATUS_FAILED, "start failed: " + run.outcome.error,
                           run.times.startedAt, run.times.runningAt, Some(run.times.endedAt));
      var _ := store.UpsertSession(RunSession(run, parent, root, failed), run.times.runningAt);
      return;
    }
    var running := Report(["process:" + Text.Itoa(run.pid)], STATUS_WORKING, "running: " + run.command,
                          run.times.startedAt, run.times.runningAt, None);
    var _ := store.UpsertSession(RunSession(run, parent, root, running), run.times.runningAt);
    var _ := store.UpsertWorkspace(RunWorkspace(run), run.times.workspaceAt);
    if parent != "" {
      var _ := store.UpsertEdge(RunEdgeTo(run, parent), run.times.edgeAt);
    }
  }

  /** Status and detail from how waiting for the command ended. */
  method Conclude(run: Invocation) returns (status: string, detail: string)
    requires Starts(run)
    ensures status == EndStatus(run.outcome) && detail == EndDetail(run)
  {
    status, detail := STATUS_COMPLETED, "completed: " + run.command;
    if run.outcome.Stopped? {
      status, detail := STATUS_STOPPED, "stopped: " + run.command;
    } else if run.outcome.Failed? {
      status, detail := STATUS_FAILED, "failed: " + run.outcome.error;
    }
  }

  method ReportEnd(store: Store, run: Invocation, parent: string, root: string)
    requires store.Valid() && Starts(run)
    modifies store
    ensures store.Valid() && store.trace == old(store.trace) + [EndOp(run, parent, root)]
  {
    var status, detail := Conclude(run);
    var done := Report(["process:" + Text.Itoa(run.pid)], status, detail,
                       run.times.startedAt, run.times.reportedAt, Some(run.times.endedAt));
    assert done == EndReport(run);
    var _ := store.UpsertSession(RunSession(run, parent, root, done), run.times.reportedAt);
  }

  method RunNested(store: Store, runs: seq<Invocation>, env: Environment)
    requires store.Valid()
    modifies store
    ensures store.Valid() && store.trace == old(store.trace) + NestedOps(runs, env)
    decreases runs, 0
  {
    if runs == [] {
      assert store.trace + [] == store.trace;
    } else {
      RunObserved(store, runs[0], env);
      RunNested(store, runs[1..], env);
      NestedOpsHead(runs, env);
      Assoc(old(store.trace), TreeOps(runs[0], env), NestedOps(runs[1..], env));
    }
  }

  /** runObservedCommand, with the runs its command makes. */
  method RunObserved(store: Store, run: Invocation, env: Environment)
    requires store.Valid()
    modifies store
    ensures store.Valid() && store.trace == old(store.trace) + TreeOps(run, env)
    decreases run, 1
  {
    var parent, root := Resolve(run, env);
    var childEnv := env[SESSION_VAR := run.id][PARENT_VAR := parent][ROOT_VAR := root]
                       [WORKSPACE_VAR := WorkspaceId(run)][SOURCE_VAR := run.source];
    ReportStart(store, run, parent, root);
    if Starts(run) {
      RunNested(store, run.nested, childEnv);
      ReportEnd(store, run, parent, root);
      TreeOpsParts(run, env);
      ghost var a, b := StartOps(run, parent, root), NestedOps(run.nested, childEnv);
      Assoc(old(store.trace), a, b);
      Assoc(old(store.trace), a + b, [EndOp(run, parent, root)]);
    }
  }

  lemma {:induction false} RunConcat(st: Snapshot, a: seq<Op>, b: seq<Op>)
    ensures Run(st, a + b) == Run(Run(st, a), b)
    decreases |b|
  {
    if b == [] {
      assert a + b == a;
    } else {
      RunConcat(st, a, b[..|b| - 1]);
      assert (a + b)[..|a + b| - 1] == a + b[..|b| - 1];
    }
  }

  /** Run a whole tree: every run is shown, with its links, how it ended and its workspace. */
  method RunWholeTree(store: Store, top: Invocation, env: Environment)
    requires store.Valid() && NestedPlain(top) && DistinctIds(top) && ArrowFree(top)
    modifies store
    ensures store.Valid()
    ensures forall r, e :: Occurs(r, e, top, env) ==>
              && Shown(store.State(), r, e, RootOf(top, env)) && Finished(store.sessions, r)
              && (Starts(r) ==> Placed(store.workspaces, r, top, env))
  {
    ghost var st, before := store.State(), store.trace;
    RunObserved(store, top, env);
    ghost var ops := TreeOps(top, env);
    TreeOpsComplete(top, env);
    RunConcat(EMPTY, before, ops);
    forall i | 0 <= i < |ops| ensures Issued(ops[i], top, env) { assert IssuedAt(ops, i, top, env); }
    assert Allowed(ops, top, env);
    forall r, e | Occurs(r, e, top, env)
      ensures Shown(store.State(), r, e, RootOf(top, env)) && Finished(store.sessions, r)
      ensures Starts(r) ==> Placed(store.workspaces, r, top, env)
    {
      AnyScheduleShowsTree(st, ops, r, e, top, env);
      LinksPropagate(r, e, top, env);
      TreeEndsLast(top, env, r, e);
      FinalReportStays(st, ops, r, e);
      if Starts(r) {
        TreeWritesPlace(top, env, r, e);
        PlaceStays(st, ops, r, e, top, env);
      }
    }
  }

  /** Run a whole tree and ask for the lineage of its root: the answer holds every run and every edge of the tree. */
  method RunThenLineage(store: Store, top: Invocation, env: Environment) returns (lineage: Lineage)
    requires store.Valid() && NestedPlain(top) && DistinctIds(top) && ArrowFree(top)
    modifies store
    ensures store.Valid()
    ensures forall r, e :: Occurs(r, e, top, env) ==> AnswerHas(lineage, r, e)
    ensures forall r, e :: Occurs(r, e, top, env) && Starts(r) ==>
              exists w :: w in lineage.workspaces && w.path == r.workspace
  {
    RunWholeTree(store, top, env);
    store.RecordsKeyed();
    lineage := store.LineageOf(RootOf(top, env));
    forall r, e | Occurs(r, e, top, env)
      ensures AnswerHas(lineage, r, e)
      ensures Starts(r) ==> exists w :: w in lineage.workspaces && w.path == r.workspace
    {
      ShownIsAnswered(store.State(), lineage, r, e, RootOf(top, env));
      if Starts(r) { PlacedIsAnswered(store.State(), lineage, r, top, env); }
    }
  }

  ghost predicate AnswerHas(lineage: Lineage, r: Invocation, e: Environment) {
    && (exists s :: s in lineage.sessions && s.id == r.id && s.parentId == ParentOf(r, e) && s.rootId == RootOf(r, e))
    && (Starts(r) && ParentOf(r, e) != "" ==>
          exists d :: d in lineage.edges && d.from == r.id && d.to == ParentOf(r, e) && d.relation == "spawned_by")
  }

  lemma PlacedIsAnswered(st: Snapshot, lineage: Lineage, r: Invocation, top: Invocation, env: Environment)
    requires Finished(st.sessions, r) && Placed(st.workspaces, r, top, env)
    requires r.id in LineageIds(st.sessions, lineage.rootId)
    requires AnswersSessions(lineage, st.sessions) && AnswersWorkspaces(lineage, st.workspaces)
    ensures exists w :: w in lineage.workspaces && w.path == r.workspace
  {
    var s, w := st.sessions[r.id], st.workspaces[WorkspaceId(r)];
    assert s in lineage.sessions && w.id in s.workspaceIds;
    assert w in lineage.workspaces;
  }

  lemma ShownIsAnswered(st: Snapshot, lineage: Lineage, r: Invocation, e: Environment, root: string)
    requires Keyed(st) && Shown(st, r, e, root)
    requires ListsLineage(lineage.sessions, st.sessions, st.sessions.Keys, root)
    requires var all := st.sessions;
             ListsEdges(lineage.edges, st.edges, st.edges.Keys, d => EdgeInLineage(all, root, d))
    ensures AnswerHas(lineage, r, e)
  {
    var s := st.sessions[r.id];
    assert multiset(lineage.sessions)[s] == 1;
    assert s in lineage.sessions;
    if Starts(r) && ParentOf(r, e) != "" {
      var d := st.edges[RunEdgeId(r, e)];
      assert multiset(lineage.edges)[d] == 1;
      assert d in lineage.edges;
    }
  }
}
