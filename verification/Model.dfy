/** The records of internal/model/model.go, cut down to the fields some operation reads. */
module Model {

  datatype Option<+T> = None | Some(value: T)

  /** A point in time; 0 is Go's zero time, the one `IsZero` recognises. */
  type Time = int

  /** What reading the wall clock gives: never the zero time. */
  type Instant = t: Time | t > 0 witness 1

  const ZERO_TIME: Time := 0

  // Statuses, attentions and confidences are open strings in the source; "" means "not given".
  const STATUS_IDLE := "idle"
  const STATUS_WORKING := "working"
  const STATUS_BLOCKED := "blocked"
  const STATUS_REVIEWABLE := "reviewable"
  const STATUS_COMPLETED := "completed"
  const STATUS_FAILED := "failed"
  const STATUS_STOPPED := "stopped"
  const STATUS_DISCONNECTED := "disconnected"
  const STATUS_UNKNOWN := "unknown"

  const ATTENTION_NONE := "none"
  const ATTENTION_INPUT := "input"
  const ATTENTION_REVIEW := "review"
  const ATTENTION_ERROR := "error"

  const CONFIDENCE_HIGH := "high"
  const CONFIDENCE_LOW := "low"
  const CONFIDENCE_UNKNOWN := "unknown"

  /** The `Meta["process"]` object that passive inference attaches to a session. */
  datatype ProcessMeta = ProcessMeta(pid: int, ppid: int, command: string, args: string, inferred: bool)

  datatype Session = Session(
    id: string,
    kind: string,
    adapter: string,
    title: string,
    summary: string,
    status: string,
    attention: string,
    statusDetail: string,
    confidence: string,
    source: string,
    cwd: string,
    workspaceRoots: seq<string>,
    startedAt: Time,
    lastActivityAt: Time,
    endedAt: Option<Time>,
    parentId: string,
    rootId: string,
    runtimeIds: seq<string>,
    workspaceIds: seq<string>,
    process: Option<ProcessMeta>)

  datatype Workspace = Workspace(
    id: string, kind: string, path: string, sessionIds: seq<string>,
    source: string, confidence: string, observedAt: Time)

  datatype Edge = Edge(
    id: string, from: string, to: string, relation: string,
    source: string, confidence: string, observedAt: Time)

  datatype Process = Process(id: string, pid: int, ppid: int, command: string, args: string, cwd: string)

  /** The event types the store itself emits; `Custom` stands for any other type string. */
  datatype EventKind =
    | SessionStarted | SessionUpserted | StatusChanged | SessionRemoved
    | WorkspaceDiscovered | WorkspaceUpserted
    | ChildSpawned | EdgeUpserted | EdgeRemoved
    | Custom(name: string)

  datatype Event = Event(
    seqNo: nat, kind: EventKind, sessionId: string, workspaceId: string, edgeId: string,
    summary: string, source: string, status: string, attention: string)

  /** isInferredProcessSession: the session carries process metadata marked as inferred. */
  predicate IsInferred(s: Session) {
    s.process.Some? && s.process.value.inferred
  }
}
