/**
 * The store under concurrency. A map write, the append of its event, each live send, each
 * backlog send, each receive and each cancel are separate atomic steps, taken in any order.
 */
module Interleaving {
  import opened Model
  import opened EventLog
  import opened Sorting
  import opened StoreSpec

  /** Capacity of a subscriber's channel. */
  const CAPACITY: nat := 128

  /** One subscription, from Subscribe on; its index in `State.subs` is its identifier. */
  datatype Sub = Sub(
    since: int,
    birth: nat,                // nextSeq when it was made
    floor: nat,                // number of events its backlog snapshot left out
    open: bool,                // registered with the store, channel not closed
    stop: nat,                 // nextSeq when it was cancelled
    closes: nat,               // how often its channel was closed
    backlog: seq<Event>,       // snapshot events the feeder has not sent yet
    pending: multiset<Event>,  // live events whose append captured this channel but has not sent yet
    buffer: seq<Event>,
    received: seq<Event>,
    dropped: multiset<Event>)

  datatype State = State(
    sessions: map<string, Session>,
    workspaces: map<string, Workspace>,
    edges: map<string, Edge>,
    inflight: seq<Event>,      // map already written, event not yet appended
    log: Log,
    history: seq<Event>,
    subs: seq<Sub>,
    crashed: bool)             // a send hit a closed channel

  const INIT := State(map[], map[], map[], [], EMPTY_LOG, [], [], false)

  /** The first critical section of an operation: change a map, leave an event in flight. */
  datatype Write =
    | WriteSession(session: Session, clock: Instant)
    | EraseSession(id: string)
    | WriteWorkspace(workspace: Workspace, clock: Instant)
    | WriteEdge(edge: Edge, clock: Instant)
    | EraseEdge(id: string)

  /** What can happen on one subscriber's channel. */
  datatype Act =
    | Send(event: Event)   // the non-blocking send of a captured live event
    | Feed                 // the feeder's blocking send
    | Receive
    | Cancel

  datatype Step =
    | Begin(write: Write)
    | Publish(k: nat)               // append the k-th in-flight event
    | PublishCustom(event: Event)   // the public AppendEvent, with a type of the caller's own
    | Subscribe(since: int)
    | Channel(sub: nat, act: Act)

  function Written(st: State, w: Write): State {
    match w
    case WriteSession(session, clock) =>
      if session.id == "" then st
      else
        var s := NormalizeSession(session, clock);
        Started(st.(sessions := st.sessions[s.id := s]), SessionEvent(st.sessions, s))
    case EraseSession(id) =>
      if id !in st.sessions then st
      else Started(st.(sessions := st.sessions - {id}), SessionRemovedEvent(id))
    case WriteWorkspace(workspace, clock) =>
      var ws := NormalizeWorkspace(workspace, clock);
      Started(st.(workspaces := st.workspaces[ws.id := ws]), WorkspaceEvent(st.workspaces, ws))
    case WriteEdge(edge, clock) =>
      var e := NormalizeEdge(edge, clock);
      Started(st.(edges := st.edges[e.id := e]), EdgeEvent(st.edges, e))
    case EraseEdge(id) =>
      if id !in st.edges then st
      else Started(st.(edges := st.edges - {id}), EdgeRemovedEvent(id))
  }

  function Started(st: State, e: Event): State {
    st.(inflight := st.inflight + [e])
  }

  /** The critical section of appendEvent: log the event and capture the open channels. */
  function Appended(st: State, e: Event, max: nat): State {
    st.(log := Append(st.log, e, max), history := Extend(st.history, e),
        subs := CapturedAll(st.subs, Stamp(e, |st.history| + 1)))
  }

  function CapturedAll(subs: seq<Sub>, e: Event): (r: seq<Sub>)
    ensures |r| == |subs| && forall i :: 0 <= i < |subs| ==> r[i] == Captured(subs[i], e)
  {
    seq(|subs|, i requires 0 <= i < |subs| => Captured(subs[i], e))
  }

  function Captured(sub: Sub, e: Event): Sub {
    if sub.open then sub.(pending := sub.pending + multiset{e}) else sub
  }

  function NewSub(log: Log, since: int, max: nat): Sub {
    var n := log.nextSeq;
    Sub(since, n, WindowStart(n, max, since, 0), true, 0, 0, After(log.events, since), multiset{}, [], [], multiset{})
  }

  /** The act sends on a channel that has been closed. */
  predicate Panics(sub: Sub, act: Act) {
    sub.closes > 0 && ((act.Send? && act.event in sub.pending) || (act.Feed? && sub.backlog != []))
  }

  /** The subscriber after an act; an act that is not possible, or has to wait, changes nothing. */
  function Acted(sub: Sub, act: Act, n: nat): Sub {
    match act
    case Send(e) =>
      if e !in sub.pending then sub
      else if |sub.buffer| < CAPACITY then sub.(pending := sub.pending - multiset{e}, buffer := sub.buffer + [e])
      else sub.(pending := sub.pending - multiset{e}, dropped := sub.dropped + multiset{e})
    case Feed =>
      if sub.backlog == [] || |sub.buffer| >= CAPACITY then sub
      else sub.(backlog := sub.backlog[1..], buffer := sub.buffer + [sub.backlog[0]])
    case Receive =>
      if sub.buffer == [] then sub
      else sub.(buffer := sub.buffer[1..], received := sub.received + [sub.buffer[0]])
    case Cancel =>
      if !sub.open then sub else sub.(open := false, stop := n, closes := sub.closes + 1)
  }

  /** One step; a step that is not possible in `st` leaves it alone, and so does every step after a crash. */
  function Next(st: State, step: Step, max: nat): State {
    if st.crashed then st
    else match step
      case Begin(write) => Written(st, write)
      case Publish(k) =>
        if k >= |st.inflight| then st
        else Appended(st.(inflight := Without(st.inflight, k)), st.inflight[k], max)
      case PublishCustom(event) =>
        if !event.kind.Custom? then st else Appended(st, event, max)
      case Subscribe(since) =>
        st.(subs := st.subs + [NewSub(st.log, since, max)])
      case Channel(k, act) =>
        if k >= |st.subs| then st
        else if Panics(st.subs[k], act) then st.(crashed := true)
        else st.(subs := st.subs[k := Acted(st.subs[k], act, st.log.nextSeq)])
  }

  function Exec(steps: seq<Step>, max: nat): State {
    if steps == [] then INIT else Next(Exec(steps[..|steps| - 1], max), steps[|steps| - 1], max)
  }

  lemma ExecOneMore(steps: seq<Step>, step: Step, max: nat)
    ensures Exec(steps + [step], max) == Next(Exec(steps, max), step, max)
  {
    assert (steps + [step])[..|steps|] == steps;
  }

  lemma ExecNext(steps: seq<Step>, step: Step, max: nat, st: State, next: State)
    requires Exec(steps, max) == st && Next(st, step, max) == next
    ensures Exec(steps + [step], max) == next
  {
    ExecOneMore(steps, step, max);
  }

  // ----- Subscriptions -----

  /** Everywhere an event for this subscriber can be. */
  ghost function Account(sub: Sub): multiset<Event> {
    multiset(sub.received) + multiset(sub.buffer) + multiset(sub.backlog) + sub.pending + sub.dropped
  }

  /** The last event meant for this subscriber. */
  ghost function End(sub: Sub, n: nat): nat {
    if sub.open then n else sub.stop
  }

  ghost predicate SubShape(sub: Sub, n: nat, max: nat) {
    && sub.floor == WindowStart(sub.birth, max, sub.since, 0)
    && sub.birth <= End(sub, n) <= n
    && |sub.buffer| <= CAPACITY
    && sub.closes == (if sub.open then 0 else 1)
  }

  ghost predicate Live(sub: Sub) {
    && (forall e :: e in sub.pending ==> e.seqNo > sub.birth)
    && (forall e :: e in sub.dropped ==> e.seqNo > sub.birth)
  }

  ghost predicate Balanced(sub: Sub, history: seq<Event>)
    requires sub.floor <= End(sub, |history|) <= |history|
  {
    Account(sub) == multiset(history[sub.floor..End(sub, |history|)])
  }

  ghost predicate SubInv(sub: Sub, history: seq<Event>, max: nat) {
    SubShape(sub, |history|, max) && Live(sub) && Balanced(sub, history)
  }

  ghost predicate LogInv(st: State, max: nat) {
    Represents(st.log, st.history, max)
  }

  ghost predicate AllSubs(subs: seq<Sub>, history: seq<Event>, max: nat) {
    forall k :: 0 <= k < |subs| ==> SubInv(subs[k], history, max)
  }

  ghost predicate SubsInv(st: State, max: nat) {
    LogInv(st, max) && AllSubs(st.subs, st.history, max)
  }

  lemma CapturedInv(sub: Sub, history: seq<Event>, e: Event, max: nat)
    requires SubInv(sub, history, max)
    ensures SubInv(Captured(sub, Stamp(e, |history| + 1)), Extend(history, e), max)
  {
    var h' := Extend(history, e);
    if sub.open {
      assert h'[sub.floor..|h'|] == history[sub.floor..|history|] + [Stamp(e, |history| + 1)];
    } else {
      assert h'[sub.floor..sub.stop] == history[sub.floor..sub.stop];
    }
  }

  lemma NewSubInv(log: Log, history: seq<Event>, since: int, max: nat)
    requires Represents(log, history, max)
    ensures SubInv(NewSub(log, since, max), history, max)
  {
    var sub := NewSub(log, since, max);
    QueryIsWindow(history, max, since, 0);
    assert sub.backlog == Newest(sub.backlog, 0) == history[sub.floor..|history|];
  }

  lemma SendConserves(sub: Sub, e: Event, n: nat)
    requires e in sub.pending
    ensures Account(Acted(sub, Send(e), n)) == Account(sub)
  {
    assert sub.pending == (sub.pending - multiset{e}) + multiset{e};
    assert multiset(sub.buffer + [e]) == multiset(sub.buffer) + multiset{e};
  }

  lemma FeedConserves(sub: Sub, n: nat)
    requires sub.backlog != []
    ensures Account(Acted(sub, Feed, n)) == Account(sub)
  {
    var e := sub.backlog[0];
    assert sub.backlog == [e] + sub.backlog[1..];
    assert multiset(sub.backlog) == multiset{e} + multiset(sub.backlog[1..]);
    assert multiset(sub.buffer + [e]) == multiset(sub.buffer) + multiset{e};
  }

  lemma ReceiveConserves(sub: Sub, n: nat)
    requires sub.buffer != []
    ensures Account(Acted(sub, Receive, n)) == Account(sub)
  {
    var e := sub.buffer[0];
    assert sub.buffer == [e] + sub.buffer[1..];
    assert multiset(sub.buffer) == multiset{e} + multiset(sub.buffer[1..]);
    assert multiset(sub.received + [e]) == multiset(sub.received) + multiset{e};
  }

  /** Acts move events between a subscriber's places; they neither lose nor copy any. */
  lemma ActConserves(sub: Sub, act: Act, n: nat)
    ensures Account(Acted(sub, act, n)) == Account(sub)
  {
    match act
    case Send(e) => if e in sub.pending { SendConserves(sub, e, n); }
    case Feed => if sub.backlog != [] { FeedConserves(sub, n); }
    case Receive => if sub.buffer != [] { ReceiveConserves(sub, n); }
    case Cancel =>
  }

  lemma ActShape(sub: Sub, act: Act, n: nat, max: nat)
    requires SubShape(sub, n, max)
    ensures SubShape(Acted(sub, act, n), n, max)
    ensures End(Acted(sub, act, n), n) == End(sub, n)
  {
  }

  lemma ActLive(sub: Sub, act: Act, n: nat)
    requires Live(sub)
    ensures Live(Acted(sub, act, n))
  {
    match act
    case Send(e) => assert forall x :: x in sub.pending - multiset{e} ==> x in sub.pending;
    case _ =>
  }

  lemma ActInv(sub: Sub, act: Act, history: seq<Event>, max: nat)
    requires SubInv(sub, history, max)
    ensures SubInv(Acted(sub, act, |history|), history, max)
  {
    ActConserves(sub, act, |history|);
    ActShape(sub, act, |history|, max);
    ActLive(sub, act, |history|);
  }

  lemma CapturedAllInv(subs: seq<Sub>, history: seq<Event>, e: Event, max: nat)
    requires AllSubs(subs, history, max)
    ensures AllSubs(CapturedAll(subs, Stamp(e, |history| + 1)), Extend(history, e), max)
  {
    var after := CapturedAll(subs, Stamp(e, |history| + 1));
    var history' := Extend(history, e);
    forall k | 0 <= k < |subs| ensures SubInv(after[k], history', max) {
      CapturedInv(subs[k], history, e, max);
    }
  }

  lemma AppendedInv(st: State, e: Event, max: nat)
    requires SubsInv(st, max)
    ensures SubsInv(Appended(st, e, max), max)
  {
    AppendRepresents(st.log, st.history, max, e);
    CapturedAllInv(st.subs, st.history, e, max);
  }

  lemma WrittenFrame(st: State, w: Write)
    ensures var st' := Written(st, w);
            st'.log == st.log && st'.history == st.history && st'.subs == st.subs && st'.crashed == st.crashed
  {
  }

  lemma ChannelKeepsSubs(st: State, k: nat, act: Act, max: nat)
    requires SubsInv(st, max) && k < |st.subs|
    ensures SubsInv(st.(subs := st.subs[k := Acted(st.subs[k], act, st.log.nextSeq)]), max)
  {
    ActInv(st.subs[k], act, st.history, max);
  }

  lemma SubscribeKeepsSubs(st: State, since: int, max: nat)
    requires SubsInv(st, max)
    ensures SubsInv(st.(subs := st.subs + [NewSub(st.log, since, max)]), max)
  {
    NewSubInv(st.log, st.history, since, max);
  }

  lemma NextKeepsSubs(st: State, step: Step, max: nat)
    requires SubsInv(st, max)
    ensures SubsInv(Next(st, step, max), max)
  {
    match step
    case Begin(write) => WrittenFrame(st, write);
    case Publish(k) =>
      if k < |st.inflight| { AppendedInv(st.(inflight := Without(st.inflight, k)), st.inflight[k], max); }
    case PublishCustom(event) => AppendedInv(st, event, max);
    case Subscribe(since) => SubscribeKeepsSubs(st, since, max);
    case Channel(k, act) => if k < |st.subs| { ChannelKeepsSubs(st, k, act, max); }
  }

  lemma {:induction false} ExecKeepsSubs(steps: seq<Step>, max: nat)
    ensures SubsInv(Exec(steps, max), max)
  {
    if steps != [] {
      ExecKeepsSubs(steps[..|steps| - 1], max);
      NextKeepsSubs(Exec(steps[..|steps| - 1], max), steps[|steps| - 1], max);
    }
  }

  lemma {:induction false} SliceCounts(h: seq<Event>, lo: nat, hi: nat, e: Event)
    requires Numbered(h) && lo <= hi <= |h|
    ensures multiset(h[lo..hi])[e] == if lo < e.seqNo <= hi && e == h[e.seqNo - 1] then 1 else 0
    decreases hi - lo
  {
    if lo < hi {
      SliceCounts(h, lo, hi - 1, e);
      assert h[lo..hi] == h[lo..hi - 1] + [h[hi - 1]];
    }
  }

  /**
   * In every interleaving, each event numbered in (floor, end] is in exactly one of a
   * subscriber's five places, once, and no other event is in any. `floor` is
   * min(S, max(since, S - retained)) with S the number of events logged at Subscribe; `end` is
   * the number logged by now, or by the cancel.
   */
  lemma SubscriptionConservation(steps: seq<Step>, max: nat, k: nat, e: Event)
    requires k < |Exec(steps, max).subs|
    ensures var st := Exec(steps, max);
            var sub := st.subs[k];
            && sub.floor == WindowStart(sub.birth, max, sub.since, 0)
            && sub.birth <= End(sub, |st.history|) <= |st.history| == st.log.nextSeq
            && Account(sub)[e]
               == (if sub.floor < e.seqNo <= End(sub, |st.history|) && e == st.history[e.seqNo - 1] then 1 else 0)
  {
    ExecKeepsSubs(steps, max);
    var st := Exec(steps, max);
    var sub := st.subs[k];
    assert SubInv(sub, st.history, max);
    SliceCounts(st.history, sub.floor, End(sub, |st.history|), e);
  }

  /** How one step changes one existing subscriber. */
  lemma SubAfter(st: State, step: Step, max: nat, k: nat)
    requires k < |st.subs|
    ensures var after := Next(st, step, max);
            && k < |after.subs|
            && (|| after.subs[k] == st.subs[k]
                || (exists e :: after.subs[k] == Captured(st.subs[k], e))
                || (step.Channel? && step.sub == k && !Panics(st.subs[k], step.act)
                    && after.subs[k] == Acted(st.subs[k], step.act, st.log.nextSeq)))
  {
    if step.Begin? { WrittenFrame(st, step.write); }
  }

  /** Only live events are dropped, and only by a send that finds the channel full. */
  lemma OnlyFullChannelsDrop(steps: seq<Step>, step: Step, max: nat, k: nat)
    requires k < |Exec(steps, max).subs|
    ensures var before := Exec(steps, max).subs[k];
            k < |Next(Exec(steps, max), step, max).subs|
            && var after := Next(Exec(steps, max), step, max).subs[k];
            && (forall e :: e in before.dropped ==> e.seqNo > before.birth)
            && |before.buffer| <= CAPACITY
            && (after.dropped != before.dropped ==>
                  && |before.buffer| == CAPACITY
                  && step.Channel? && step.sub == k && step.act.Send?
                  && after.dropped == before.dropped + multiset{step.act.event}
                  && step.act.event.seqNo > before.birth)
  {
    ExecKeepsSubs(steps, max);
    var st := Exec(steps, max);
    assert SubInv(st.subs[k], st.history, max);
    SubAfter(st, step, max, k);
  }

  // ----- Order of the backlog -----

  /** The events of a list that were logged before the subscription was made. */
  function Old(es: seq<Event>, birth: nat): seq<Event> {
    if es == [] then []
    else if es[|es| - 1].seqNo <= birth then Old(es[..|es| - 1], birth) + [es[|es| - 1]]
    else Old(es[..|es| - 1], birth)
  }

  lemma OldSnoc(es: seq<Event>, e: Event, birth: nat)
    ensures Old(es + [e], birth) == Old(es, birth) + (if e.seqNo <= birth then [e] else [])
  {
    assert (es + [e])[..|es|] == es;
  }

  /** Everything the channel has carried, oldest first. */
  function Carried(sub: Sub): seq<Event> { sub.received + sub.buffer }

  ghost predicate BacklogOrdered(sub: Sub, history: seq<Event>) {
    && sub.floor <= sub.birth <= |history|
    && (forall e :: e in sub.backlog ==> e.seqNo <= sub.birth)
    && Old(Carried(sub), sub.birth) + sub.backlog == history[sub.floor..sub.birth]
  }

  lemma CarriedAfter(sub: Sub, act: Act, n: nat)
    ensures match act
            case Send(e) =>
              Carried(Acted(sub, act, n)) == Carried(sub) || Carried(Acted(sub, act, n)) == Carried(sub) + [e]
            case Feed => Acted(sub, act, n) == sub
                         || (sub.backlog != [] && Carried(Acted(sub, act, n)) == Carried(sub) + [sub.backlog[0]])
            case _ => Carried(Acted(sub, act, n)) == Carried(sub)
  {
  }

  lemma ActKeepsOrder(sub: Sub, act: Act, history: seq<Event>, n: nat)
    requires BacklogOrdered(sub, history) && Live(sub)
    ensures BacklogOrdered(Acted(sub, act, n), history)
  {
    CarriedAfter(sub, act, n);
    match act
    case Send(e) => OldSnoc(Carried(sub), e, sub.birth);
    case Feed =>
      if sub.backlog != [] {
        var e := sub.backlog[0];
        OldSnoc(Carried(sub), e, sub.birth);
        assert e in sub.backlog;
        assert (Old(Carried(sub), sub.birth) + [e]) + sub.backlog[1..] == Old(Carried(sub), sub.birth) + sub.backlog;
      }
    case _ =>
  }

  lemma AppendKeepsOrder(sub: Sub, history: seq<Event>, e: Event, stamped: Event)
    requires BacklogOrdered(sub, history)
    ensures BacklogOrdered(Captured(sub, stamped), Extend(history, e))
  {
    assert Extend(history, e)[sub.floor..sub.birth] == history[sub.floor..sub.birth];
  }

  lemma NewSubOrdered(log: Log, history: seq<Event>, since: int, max: nat)
    requires Represents(log, history, max)
    ensures BacklogOrdered(NewSub(log, since, max), history)
  {
    var sub := NewSub(log, since, max);
    FilterIsWindow(history, max, since);
    assert sub.backlog == history[sub.floor..|history|];
  }

  ghost predicate AllOrdered(st: State) {
    forall k :: 0 <= k < |st.subs| ==> BacklogOrdered(st.subs[k], st.history)
  }

  lemma AppendedOrdered(st: State, e: Event, max: nat)
    requires AllOrdered(st)
    ensures AllOrdered(Appended(st, e, max))
  {
    var after := Appended(st, e, max);
    forall k | 0 <= k < |after.subs| ensures BacklogOrdered(after.subs[k], after.history) {
      AppendKeepsOrder(st.subs[k], st.history, e, Stamp(e, |st.history| + 1));
    }
  }

  lemma ChannelOrdered(st: State, k: nat, act: Act, max: nat)
    requires SubsInv(st, max) && AllOrdered(st) && k < |st.subs|
    ensures AllOrdered(st.(subs := st.subs[k := Acted(st.subs[k], act, st.log.nextSeq)]))
  {
    assert Live(st.subs[k]) by { assert SubInv(st.subs[k], st.history, max); }
    ActKeepsOrder(st.subs[k], act, st.history, st.log.nextSeq);
  }

  lemma NextKeepsOrder(st: State, step: Step, max: nat)
    requires SubsInv(st, max) && AllOrdered(st)
    ensures AllOrdered(Next(st, step, max))
  {
    match step
    case Begin(write) => WrittenFrame(st, write);
    case Publish(i) =>
      if i < |st.inflight| { AppendedOrdered(st.(inflight := Without(st.inflight, i)), st.inflight[i], max); }
    case PublishCustom(event) => AppendedOrdered(st, event, max);
    case Subscribe(since) => NewSubOrdered(st.log, st.history, since, max);
    case Channel(k, act) => if k < |st.subs| { ChannelOrdered(st, k, act, max); }
  }

  /**
   * The snapshot is delivered whole and in order: in every interleaving, the backlog events
   * among those received and buffered, followed by the ones still to be fed, are exactly the
   * events (floor, S] in sequence, however live events are mixed in between.
   */
  lemma {:induction false} BacklogInOrder(steps: seq<Step>, max: nat)
    ensures AllOrdered(Exec(steps, max))
  {
    if steps != [] {
      var front := steps[..|steps| - 1];
      BacklogInOrder(front, max);
      ExecKeepsSubs(front, max);
      NextKeepsOrder(Exec(front, max), steps[|steps| - 1], max);
    }
  }

  // ----- Delivery -----

  /** The run from `st` on. */
  function Follow(st: State, more: seq<Step>, max: nat): State
    decreases |more|
  {
    if more == [] then st else Follow(Next(st, more[0], max), more[1..], max)
  }

  lemma FollowFirst(st: State, step: Step, more: seq<Step>, max: nat)
    ensures Follow(st, [step] + more, max) == Follow(Next(st, step, max), more, max)
  {
    assert ([step] + more)[1..] == more;
  }

  lemma {:induction false} FollowJoin(st: State, a: seq<Step>, b: seq<Step>, max: nat)
    ensures Follow(st, a + b, max) == Follow(Follow(st, a, max), b, max)
    decreases |a|
  {
    if a == [] {
      assert a + b == b;
    } else {
      FollowJoin(Next(st, a[0], max), a[1..], b, max);
      assert (a + b)[1..] == a[1..] + b;
    }
  }

  lemma StepsAssoc(steps: seq<Step>, more: seq<Step>)
    requires more != []
    ensures (steps + [more[0]]) + more[1..] == steps + more
  {
  }

  lemma FollowNext(st: State, more: seq<Step>, max: nat, next: State)
    requires more != [] && Next(st, more[0], max) == next
    ensures Follow(st, more, max) == Follow(next, more[1..], max)
  {
  }

  /** Going on after a run is running it all. */
  lemma {:induction false} ExecThenFollow(steps: seq<Step>, more: seq<Step>, max: nat, st: State)
    requires Exec(steps, max) == st
    ensures Exec(steps + more, max) == Follow(st, more, max)
    decreases |more|
  {
    if more == [] {
      assert steps + more == steps;
    } else {
      var next := Next(st, more[0], max);
      ExecNext(steps, more[0], max, st, next);
      FollowNext(st, more, max, next);
      ExecThenFollow(steps + [more[0]], more[1..], max, next);
      StepsAssoc(steps, more);
    }
  }

  /** The same state with subscriber `k` replaced. */
  function WithSub(st: State, k: nat, sub: Sub): State
    requires k < |st.subs|
  {
    st.(subs := st.subs[k := sub])
  }

  lemma WithSubTwice(st: State, k: nat, a: Sub, b: Sub)
    requires k < |st.subs|
    ensures WithSub(WithSub(st, k, a), k, b) == WithSub(st, k, b)
  {
    assert st.subs[k := a][k := b] == st.subs[k := b];
  }

  lemma WithSubSame(st: State, k: nat)
    requires k < |st.subs|
    ensures WithSub(st, k, st.subs[k]) == st
  {
    assert st.subs[k := st.subs[k]] == st.subs;
  }

  /** The store runs and channel `k` exists, and it has not been closed while open. */
  ghost predicate Running(st: State, k: nat) {
    !st.crashed && k < |st.subs| && (st.subs[k].open ==> st.subs[k].closes == 0)
  }

  /** A client that reads gets the oldest buffered event. */
  lemma ReceiveTakesOldest(st: State, max: nat, k: nat)
    requires Running(st, k) && st.subs[k].buffer != []
    ensures var sub := st.subs[k];
            Next(st, Channel(k, Receive), max)
            == WithSub(st, k, sub.(received := sub.received + [sub.buffer[0]], buffer := sub.buffer[1..]))
  {
  }

  /** The feeder moves the next snapshot event into an open channel that has room. */
  lemma FeedMovesNext(st: State, max: nat, k: nat)
    requires Running(st, k) && st.subs[k].open && st.subs[k].backlog != [] && |st.subs[k].buffer| < 128
    ensures var sub := st.subs[k];
            Next(st, Channel(k, Feed), max)
            == WithSub(st, k, sub.(buffer := sub.buffer + [sub.backlog[0]], backlog := sub.backlog[1..]))
  {
  }

  /** A captured event goes into an open channel that has room, and is dropped by a full one. */
  lemma SendDelivers(st: State, max: nat, k: nat, e: Event)
    requires Running(st, k) && st.subs[k].open && e in st.subs[k].pending
    ensures var sub := st.subs[k].(pending := st.subs[k].pending - multiset{e});
            Next(st, Channel(k, Send(e)), max)
            == WithSub(st, k, if |sub.buffer| < 128 then sub.(buffer := sub.buffer + [e])
                              else sub.(dropped := sub.dropped + multiset{e}))
  {
  }

  function Reads(k: nat, n: nat): seq<Step> {
    if n == 0 then [] else [Channel(k, Receive)] + Reads(k, n - 1)
  }

  function Delivered(sub: Sub, n: nat): Sub
    requires n <= |sub.buffer|
  {
    sub.(received := sub.received + sub.buffer[..n], buffer := sub.buffer[n..])
  }

  lemma {:induction false} ReadsDeliver(st: State, max: nat, k: nat, n: nat)
    requires Running(st, k) && n <= |st.subs[k].buffer|
    ensures Follow(st, Reads(k, n), max) == WithSub(st, k, Delivered(st.subs[k], n))
    decreases n
  {
    var sub := st.subs[k];
    if n == 0 {
      assert Delivered(sub, 0) == sub;
      WithSubSame(st, k);
    } else {
      ReceiveTakesOldest(st, max, k);
      var next := Next(st, Channel(k, Receive), max);
      ReadsDeliver(next, max, k, n - 1);
      FollowFirst(st, Channel(k, Receive), Reads(k, n - 1), max);
      DeliveredStep(sub, n);
      WithSubTwice(st, k, next.subs[k], Delivered(sub, n));
    }
  }

  lemma DeliveredStep(sub: Sub, n: nat)
    requires 0 < n <= |sub.buffer|
    ensures Delivered(sub.(received := sub.received + [sub.buffer[0]], buffer := sub.buffer[1..]), n - 1)
            == Delivered(sub, n)
  {
    assert (sub.received + [sub.buffer[0]]) + sub.buffer[1..][..n - 1] == sub.received + sub.buffer[..n];
  }

  lemma ReadAll(st: State, max: nat, k: nat)
    requires Running(st, k)
    ensures var sub := st.subs[k];
            Follow(st, Reads(k, |sub.buffer|), max)
            == WithSub(st, k, sub.(received := sub.received + sub.buffer, buffer := []))
  {
    var sub := st.subs[k];
    ReadsDeliver(st, max, k, |sub.buffer|);
    assert sub.buffer[..|sub.buffer|] == sub.buffer && sub.buffer[|sub.buffer|..] == [];
  }

  /** The feeder and the client in turn. */
  function Feeds(k: nat, n: nat): seq<Step> {
    if n == 0 then [] else [Channel(k, Feed)] + ([Channel(k, Receive)] + Feeds(k, n - 1))
  }

  function Fed(sub: Sub, n: nat): Sub
    requires n <= |sub.backlog|
  {
    sub.(received := sub.received + sub.backlog[..n], backlog := sub.backlog[n..])
  }

  lemma FedStep(sub: Sub, n: nat)
    requires 0 < n <= |sub.backlog|
    ensures Fed(sub.(received := sub.received + [sub.backlog[0]], backlog := sub.backlog[1..]), n - 1) == Fed(sub, n)
  {
    assert (sub.received + [sub.backlog[0]]) + sub.backlog[1..][..n - 1] == sub.received + sub.backlog[..n];
  }

  lemma FeedThenRead(st: State, max: nat, k: nat)
    requires Running(st, k) && st.subs[k].open && st.subs[k].buffer == [] && st.subs[k].backlog != []
    ensures var sub := st.subs[k];
            Next(Next(st, Channel(k, Feed), max), Channel(k, Receive), max)
            == WithSub(st, k, sub.(received := sub.received + [sub.backlog[0]], backlog := sub.backlog[1..]))
  {
    FeedMovesNext(st, max, k);
    var mid := Next(st, Channel(k, Feed), max);
    ReceiveTakesOldest(mid, max, k);
    assert mid.subs[k].buffer[1..] == [];
    WithSubTwice(st, k, mid.subs[k], Next(mid, Channel(k, Receive), max).subs[k]);
  }

  lemma {:induction false} FeedsDeliver(st: State, max: nat, k: nat, n: nat)
    requires Running(st, k) && st.subs[k].open && st.subs[k].buffer == [] && n <= |st.subs[k].backlog|
    ensures Follow(st, Feeds(k, n), max) == WithSub(st, k, Fed(st.subs[k], n))
    decreases n
  {
    var sub := st.subs[k];
    if n == 0 {
      assert Fed(sub, 0) == sub;
      WithSubSame(st, k);
    } else {
      FeedThenRead(st, max, k);
      var mid := Next(st, Channel(k, Feed), max);
      var next := Next(mid, Channel(k, Receive), max);
      FeedsDeliver(next, max, k, n - 1);
      FollowFirst(st, Channel(k, Feed), [Channel(k, Receive)] + Feeds(k, n - 1), max);
      FollowFirst(mid, Channel(k, Receive), Feeds(k, n - 1), max);
      FedStep(sub, n);
      WithSubTwice(st, k, next.subs[k], Fed(sub, n));
    }
  }

  lemma SendThenRead(st: State, max: nat, k: nat, e: Event)
    requires Running(st, k) && st.subs[k].open && st.subs[k].buffer == [] && e in st.subs[k].pending
    ensures var sub := st.subs[k];
            Next(Next(st, Channel(k, Send(e)), max), Channel(k, Receive), max)
            == WithSub(st, k, sub.(received := sub.received + [e], pending := sub.pending - multiset{e}))
  {
    SendDelivers(st, max, k, e);
    var mid := Next(st, Channel(k, Send(e)), max);
    ReceiveTakesOldest(mid, max, k);
    assert mid.subs[k].buffer[1..] == [];
    WithSubTwice(st, k, mid.subs[k], Next(mid, Channel(k, Receive), max).subs[k]);
  }

  /** The senders of these events and the client in turn. */
  function Sends(k: nat, es: seq<Event>): seq<Step> {
    if es == [] then [] else [Channel(k, Send(es[0]))] + ([Channel(k, Receive)] + Sends(k, es[1..]))
  }

  function Sent(sub: Sub, es: seq<Event>): Sub {
    sub.(received := sub.received + es, pending := sub.pending - multiset(es))
  }

  lemma SentStep(sub: Sub, es: seq<Event>)
    requires es != []
    ensures Sent(sub.(received := sub.received + [es[0]], pending := sub.pending - multiset{es[0]}), es[1..])
            == Sent(sub, es)
  {
    assert es == [es[0]] + es[1..];
    assert (sub.received + [es[0]]) + es[1..] == sub.received + es;
    assert multiset(es) == multiset{es[0]} + multiset(es[1..]);
  }

  lemma {:induction false} SendsDeliver(st: State, max: nat, k: nat, es: seq<Event>)
    requires Running(st, k) && st.subs[k].open && st.subs[k].buffer == [] && multiset(es) <= st.subs[k].pending
    ensures Follow(st, Sends(k, es), max) == WithSub(st, k, Sent(st.subs[k], es))
    decreases |es|
  {
    var sub := st.subs[k];
    if es == [] {
      assert Sent(sub, es) == sub;
      WithSubSame(st, k);
    } else {
      assert es == [es[0]] + es[1..];
      assert es[0] in sub.pending && multiset(es[1..]) <= sub.pending - multiset{es[0]};
      SendThenRead(st, max, k, es[0]);
      var mid := Next(st, Channel(k, Send(es[0])), max);
      var next := Next(mid, Channel(k, Receive), max);
      SendsDeliver(next, max, k, es[1..]);
      FollowFirst(st, Channel(k, Send(es[0])), [Channel(k, Receive)] + Sends(k, es[1..]), max);
      FollowFirst(mid, Channel(k, Receive), Sends(k, es[1..]), max);
      SentStep(sub, es);
      WithSubTwice(st, k, next.subs[k], Sent(sub, es));
    }
  }

  lemma ReachableRuns(steps: seq<Step>, max: nat, k: nat)
    requires !Exec(steps, max).crashed && k < |Exec(steps, max).subs|
    ensures Running(Exec(steps, max), k)
  {
    ExecKeepsSubs(steps, max);
    assert SubInv(Exec(steps, max).subs[k], Exec(steps, max).history, max);
  }

  /**
   * From every reachable state, as many reads as there are buffered events deliver all of them,
   * in order, and touch nothing else.
   */
  lemma ReadingDelivers(steps: seq<Step>, max: nat, k: nat)
    requires !Exec(steps, max).crashed && k < |Exec(steps, max).subs|
    ensures var st := Exec(steps, max);
            var sub := st.subs[k];
            Exec(steps + Reads(k, |sub.buffer|), max)
            == WithSub(st, k, sub.(received := sub.received + sub.buffer, buffer := []))
  {
    var st := Exec(steps, max);
    var sub := st.subs[k];
    ReachableRuns(steps, max, k);
    ExecThenFollow(steps, Reads(k, |sub.buffer|), max, st);
    ReadAll(st, max, k);
  }

  /** Reading the buffer empty, then feeding and reading until the backlog is empty too. */
  function Catchup(k: nat, sub: Sub): seq<Step> {
    Reads(k, |sub.buffer|) + Feeds(k, |sub.backlog|)
  }

  lemma CatchesUp(st: State, max: nat, k: nat)
    requires Running(st, k) && (st.subs[k].open || st.subs[k].backlog == [])
    ensures var sub := st.subs[k];
            Follow(st, Catchup(k, sub), max)
            == WithSub(st, k, sub.(received := sub.received + sub.buffer + sub.backlog, buffer := [], backlog := []))
  {
    var sub := st.subs[k];
    ReadAll(st, max, k);
    var mid := Follow(st, Reads(k, |sub.buffer|), max);
    assert sub.backlog[..|sub.backlog|] == sub.backlog && sub.backlog[|sub.backlog|..] == [];
    FollowJoin(st, Reads(k, |sub.buffer|), Feeds(k, |sub.backlog|), max);
    if sub.backlog == [] {
      assert sub.received + sub.buffer + [] == sub.received + sub.buffer;
    } else {
      FeedsDeliver(mid, max, k, |sub.backlog|);
      WithSubTwice(st, k, mid.subs[k], Fed(mid.subs[k], |sub.backlog|));
    }
  }

  /**
   * From every reachable state in which the channel is open, the feeder and the client can bring
   * the backlog to its end, and the client then has the snapshot whole and in order.
   */
  lemma BacklogArrives(steps: seq<Step>, max: nat, k: nat)
    requires !Exec(steps, max).crashed && k < |Exec(steps, max).subs|
    requires Exec(steps, max).subs[k].open || Exec(steps, max).subs[k].backlog == []
    ensures var st := Exec(steps, max);
            var sub := st.subs[k];
            && Exec(steps + Catchup(k, sub), max)
               == WithSub(st, k, sub.(received := sub.received + sub.buffer + sub.backlog, buffer := [], backlog := []))
            && sub.floor <= sub.birth <= |st.history|
            && Old(sub.received + sub.buffer + sub.backlog, sub.birth) == st.history[sub.floor..sub.birth]
  {
    var st := Exec(steps, max);
    var sub := st.subs[k];
    ReachableRuns(steps, max, k);
    ExecThenFollow(steps, Catchup(k, sub), max, st);
    CatchesUp(st, max, k);
    BacklogInOrder(steps + Catchup(k, sub), max);
    var after := Exec(steps + Catchup(k, sub), max);
    assert BacklogOrdered(after.subs[k], after.history);
    assert Carried(after.subs[k]) == after.subs[k].received;
  }

  /** On a closed channel every step leaves the backlog as it is, or crashes. */
  lemma ClosedBacklogStep(st: State, step: Step, max: nat, k: nat)
    requires SubsInv(st, max) && !st.crashed && k < |st.subs| && !st.subs[k].open
    ensures var after := Next(st, step, max);
            after.crashed || (k < |after.subs| && !after.subs[k].open && after.subs[k].backlog == st.subs[k].backlog)
  {
    assert SubInv(st.subs[k], st.history, max);
    SubAfter(st, step, max, k);
  }

  lemma {:induction false} CrashedStays(st: State, more: seq<Step>, max: nat)
    requires st.crashed
    ensures Follow(st, more, max) == st
    decreases |more|
  {
    if more != [] { CrashedStays(st, more[1..], max); }
  }

  lemma {:induction false} ClosedBacklogStays(st: State, more: seq<Step>, max: nat, k: nat)
    requires SubsInv(st, max) && !st.crashed && k < |st.subs| && !st.subs[k].open
    ensures var after := Follow(st, more, max);
            after.crashed || (k < |after.subs| && after.subs[k].backlog == st.subs[k].backlog)
    decreases |more|
  {
    if more != [] {
      var next := Next(st, more[0], max);
      ClosedBacklogStep(st, more[0], max, k);
      NextKeepsSubs(st, more[0], max);
      if next.crashed {
        CrashedStays(next, more[1..], max);
      } else {
        ClosedBacklogStays(next, more[1..], max, k);
      }
    }
  }

  /** Some continuation of the run empties the backlog of channel `k` without a crash. */
  ghost predicate CanEmptyBacklog(steps: seq<Step>, max: nat, k: nat) {
    exists more :: EmptiesBacklog(steps + more, max, k)
  }

  ghost predicate EmptiesBacklog(steps: seq<Step>, max: nat, k: nat) {
    var st := Exec(steps, max);
    !st.crashed && k < |st.subs| && st.subs[k].backlog == []
  }

  /** The backlog can still be delivered exactly when the channel is open or nothing is left of it. */
  lemma BacklogArrivesIff(steps: seq<Step>, max: nat, k: nat)
    requires !Exec(steps, max).crashed && k < |Exec(steps, max).subs|
    ensures CanEmptyBacklog(steps, max, k)
            <==> Exec(steps, max).subs[k].open || Exec(steps, max).subs[k].backlog == []
  {
    var st := Exec(steps, max);
    if st.subs[k].open || st.subs[k].backlog == [] {
      BacklogArrives(steps, max, k);
      assert EmptiesBacklog(steps + Catchup(k, st.subs[k]), max, k);
    } else {
      ExecKeepsSubs(steps, max);
      forall more ensures !EmptiesBacklog(steps + more, max, k) {
        ExecThenFollow(steps, more, max, st);
        ClosedBacklogStays(st, more, max, k);
      }
    }
  }

  /**
   * From every reachable state in which the channel is open, a client that keeps reading can get
   * everything: once its buffer, its backlog and the captured events in any order `es` have come
   * in, nothing more was dropped, and received and dropped together are all that was due.
   */
  lemma EverythingArrives(steps: seq<Step>, max: nat, k: nat, es: seq<Event>)
    requires !Exec(steps, max).crashed && k < |Exec(steps, max).subs| && Exec(steps, max).subs[k].open
    requires multiset(es) == Exec(steps, max).subs[k].pending
    ensures var st := Exec(steps, max);
            var sub := st.subs[k];
            var all := sub.received + sub.buffer + sub.backlog + es;
            && Exec(steps + (Catchup(k, sub) + Sends(k, es)), max)
               == WithSub(st, k, sub.(received := all, buffer := [], backlog := [], pending := multiset{}))
            && sub.floor <= |st.history|
            && multiset(all) + sub.dropped == multiset(st.history[sub.floor..])
  {
    var st := Exec(steps, max);
    var sub := st.subs[k];
    ReachableRuns(steps, max, k);
    ExecThenFollow(steps, Catchup(k, sub) + Sends(k, es), max, st);
    FollowJoin(st, Catchup(k, sub), Sends(k, es), max);
    CatchesUp(st, max, k);
    var mid := Follow(st, Catchup(k, sub), max);
    SendsDeliver(mid, max, k, es);
    WithSubTwice(st, k, mid.subs[k], Sent(mid.subs[k], es));
    EverythingIsDue(steps, max, k, es);
  }

  lemma EverythingIsDue(steps: seq<Step>, max: nat, k: nat, es: seq<Event>)
    requires k < |Exec(steps, max).subs| && Exec(steps, max).subs[k].open
    requires multiset(es) == Exec(steps, max).subs[k].pending
    ensures var st := Exec(steps, max);
            var sub := st.subs[k];
            && sub.floor <= |st.history|
            && multiset(sub.received + sub.buffer + sub.backlog + es) + sub.dropped
               == multiset(st.history[sub.floor..])
  {
    ExecKeepsSubs(steps, max);
    var st := Exec(steps, max);
    var sub := st.subs[k];
    assert SubInv(sub, st.history, max);
    assert st.history[sub.floor..] == st.history[sub.floor..|st.history|];
  }

  /** What is logged: an in-flight event that is published, or a custom event, and nothing by any other step. */
  lemma LogGrows(st: State, step: Step, max: nat)
    requires !st.crashed
    ensures var after := Next(st, step, max).history;
            match step
            case Publish(k) =>
              after == st.history + (if k < |st.inflight| then [Stamp(st.inflight[k], |st.history| + 1)] else [])
            case PublishCustom(e) =>
              after == st.history + (if e.kind.Custom? then [Stamp(e, |st.history| + 1)] else [])
            case _ => after == st.history
  {
    if step.Begin? { WrittenFrame(st, step.write); }
  }

  // ----- Closing channels -----

  lemma ClosedStaysQuiet(sub: Sub, act: Act, n: nat)
    requires !sub.open
    ensures var after := Acted(sub, act, n);
            && !after.open && after.closes == sub.closes && after.stop == sub.stop
            && after.pending <= sub.pending && Account(after) == Account(sub)
  {
    ActConserves(sub, act, n);
  }

  /** A step leaves a closed channel closed, with the same account and no new pending sends. */
  lemma StepKeepsClosed(st: State, step: Step, max: nat, k: nat)
    requires k < |st.subs| && !st.subs[k].open
    ensures k < |Next(st, step, max).subs|
    ensures var after := Next(st, step, max).subs[k];
            && !after.open && after.closes == st.subs[k].closes && after.stop == st.subs[k].stop
            && after.pending <= st.subs[k].pending && Account(after) == Account(st.subs[k])
  {
    SubAfter(st, step, max, k);
    if step.Channel? { ClosedStaysQuiet(st.subs[k], step.act, st.log.nextSeq); }
  }

  /**
   * However often cancel is called, a channel is closed at most once, and after that no append
   * targets it: its account never changes and its pending sends only shrink.
   */
  lemma ClosedOnceThenQuiet(steps: seq<Step>, step: Step, max: nat, k: nat)
    requires k < |Exec(steps, max).subs|
    ensures Exec(steps, max).subs[k].closes == if Exec(steps, max).subs[k].open then 0 else 1
    ensures var before := Exec(steps, max).subs[k];
            !before.open ==>
              k < |Next(Exec(steps, max), step, max).subs|
              && var after := Next(Exec(steps, max), step, max).subs[k];
              && !after.open && after.closes == 1 && after.stop == before.stop
              && after.pending <= before.pending && Account(after) == Account(before)
  {
    ExecKeepsSubs(steps, max);
    var st := Exec(steps, max);
    assert SubShape(st.subs[k], |st.history|, max) by { assert SubInv(st.subs[k], st.history, max); }
    if !st.subs[k].open { StepKeepsClosed(st, step, max, k); }
  }

  /** Nothing is left to send on this channel. */
  ghost predicate Drained(sub: Sub) { sub.backlog == [] && sub.pending == multiset{} }

  /** A closed channel that still has a sender. */
  ghost predicate Exposed(st: State, k: nat) {
    k < |st.subs| && !st.subs[k].open && !Drained(st.subs[k])
  }

  /** Some act panics on this channel. */
  lemma PanicsIff(sub: Sub)
    requires sub.closes == if sub.open then 0 else 1
    ensures (exists act :: Panics(sub, act)) <==> !sub.open && !Drained(sub)
  {
    if !sub.open && !Drained(sub) {
      if sub.backlog != [] {
        assert Panics(sub, Feed);
      } else {
        var e :| e in sub.pending;
        assert Panics(sub, Send(e));
      }
    }
  }

  lemma CrashIsPanic(st: State, step: Step, max: nat)
    requires !st.crashed
    ensures Next(st, step, max).crashed <==>
            step.Channel? && step.sub < |st.subs| && Panics(st.subs[step.sub], step.act)
  {
    if step.Begin? { WrittenFrame(st, step.write); }
  }

  /** A reachable, running store can crash on its next step exactly when some closed channel still has a sender. */
  lemma CrashNextIff(steps: seq<Step>, max: nat)
    requires !Exec(steps, max).crashed
    ensures (exists step :: Next(Exec(steps, max), step, max).crashed)
            <==> (exists k: nat :: Exposed(Exec(steps, max), k))
  {
    ExecKeepsSubs(steps, max);
    var st := Exec(steps, max);
    if exists step :: Next(st, step, max).crashed {
      var step :| Next(st, step, max).crashed;
      CrashIsPanic(st, step, max);
      var sub := st.subs[step.sub];
      assert SubShape(sub, |st.history|, max) by { assert SubInv(sub, st.history, max); }
      PanicsIff(sub);
      assert Exposed(st, step.sub);
    }
    if exists k: nat :: Exposed(st, k) {
      var k: nat :| Exposed(st, k);
      assert SubShape(st.subs[k], |st.history|, max) by { assert SubInv(st.subs[k], st.history, max); }
      PanicsIff(st.subs[k]);
      var act :| Panics(st.subs[k], act);
      CrashIsPanic(st, Channel(k, act), max);
      assert Next(st, Channel(k, act), max).crashed;
    }
  }

  /** This step is not a cancel that closes a channel with senders left. */
  ghost predicate PatientStep(st: State, step: Step) {
    step.Channel? && step.act.Cancel? && step.sub < |st.subs| && st.subs[step.sub].open ==> Drained(st.subs[step.sub])
  }

  /** Every cancel that closes a channel waits until its senders are done. */
  ghost predicate Patient(steps: seq<Step>, max: nat) {
    steps == [] || (
      var front := steps[..|steps| - 1];
      Patient(front, max) && PatientStep(Exec(front, max), steps[|steps| - 1]))
  }

  ghost predicate Safe(sub: Sub) { !sub.open ==> Drained(sub) }

  ghost predicate Unexposed(st: State) {
    !st.crashed && forall k :: 0 <= k < |st.subs| ==> Safe(st.subs[k])
  }

  lemma ActKeepsSafe(sub: Sub, act: Act, n: nat)
    requires Safe(sub) && (act.Cancel? && sub.open ==> Drained(sub))
    ensures Safe(Acted(sub, act, n))
  {
  }

  lemma NextUnexposed(st: State, step: Step, max: nat)
    requires SubsInv(st, max) && Unexposed(st) && PatientStep(st, step)
    ensures Unexposed(Next(st, step, max))
  {
    NoPanic(st, step, max);
    var after := Next(st, step, max);
    forall k | 0 <= k < |after.subs| ensures Safe(after.subs[k]) {
      if k < |st.subs| {
        SubAfter(st, step, max, k);
        if step.Channel? && step.sub == k { ActKeepsSafe(st.subs[k], step.act, st.log.nextSeq); }
      } else {
        OnlySubscribeAdds(st, step, max);
      }
    }
  }

  lemma NoPanic(st: State, step: Step, max: nat)
    requires SubsInv(st, max) && Unexposed(st)
    ensures !Next(st, step, max).crashed
  {
    CrashIsPanic(st, step, max);
    if step.Channel? && step.sub < |st.subs| {
      var sub := st.subs[step.sub];
      assert SubShape(sub, |st.history|, max) by { assert SubInv(sub, st.history, max); }
      PanicsIff(sub);
    }
  }

  lemma OnlySubscribeAdds(st: State, step: Step, max: nat)
    ensures var after := Next(st, step, max);
            |after.subs| == |st.subs| || (after.subs == st.subs + [after.subs[|st.subs|]] && after.subs[|st.subs|].open)
  {
    if step.Begin? { WrittenFrame(st, step.write); }
  }

  /** With patient cancels no run ever sends on a closed channel. */
  lemma {:induction false} PatientRunsNeverCrash(steps: seq<Step>, max: nat)
    requires Patient(steps, max)
    ensures Unexposed(Exec(steps, max))
  {
    if steps != [] {
      var front := steps[..|steps| - 1];
      PatientRunsNeverCrash(front, max);
      ExecKeepsSubs(front, max);
      NextUnexposed(Exec(front, max), steps[|steps| - 1], max);
    }
  }

  /** The first impatient cancel of a run, and only such a cancel, lets the next step send on a closed channel. */
  lemma ImpatientCancelCanCrash(steps: seq<Step>, max: nat, k: nat)
    requires Patient(steps, max) && k < |Exec(steps, max).subs| && Exec(steps, max).subs[k].open
    ensures (exists step :: Next(Exec(steps + [Channel(k, Cancel)], max), step, max).crashed)
            <==> !Drained(Exec(steps, max).subs[k])
  {
    PatientRunsNeverCrash(steps, max);
    var st := Exec(steps, max);
    var run := steps + [Channel(k, Cancel)];
    assert run[..|steps|] == steps;
    var after := Exec(run, max);
    assert after == Next(st, Channel(k, Cancel), max);
    assert after.subs == st.subs[k := Acted(st.subs[k], Cancel, st.log.nextSeq)];
    CrashNextIff(run, max);
    if !Drained(st.subs[k]) { assert Exposed(after, k); }
  }

  /** The event of the first upsert into an empty store. */
  function FirstEvent(s: Session, clock: Instant): Event {
    SessionEvent(map[], NormalizeSession(s, clock))
  }

  /** An upsert whose two critical sections follow each other. */
  function Upsert(s: Session, clock: Instant): seq<Step> {
    [Begin(WriteSession(s, clock))] + [Publish(0)]
  }

  /** The two critical sections of an upsert in a quiet store. */
  lemma WriteThenPublish(st: State, s: Session, clock: Instant, max: nat)
    requires !st.crashed && st.inflight == [] && st.sessions == map[] && s.id != ""
    ensures var after := Next(Next(st, Begin(WriteSession(s, clock)), max), Publish(0), max);
            && !after.crashed && after.inflight == []
            && after.log == Append(st.log, FirstEvent(s, clock), max)
            && after.subs == CapturedAll(st.subs, Stamp(FirstEvent(s, clock), |st.history| + 1))
  {
    var mid := Next(st, Begin(WriteSession(s, clock)), max);
    assert mid.inflight == [FirstEvent(s, clock)] && Without(mid.inflight, 0) == [];
  }

  /** The log after one upsert into an empty store with nobody subscribed. */
  lemma AfterOneUpsert(s: Session, clock: Instant, max: nat)
    requires s.id != "" && max > 0
    ensures var st := Exec(Upsert(s, clock), max);
            && !st.crashed && st.subs == [] && st.inflight == []
            && st.log == Log([Stamp(FirstEvent(s, clock), 1)], 1)
  {
    var mid := Next(INIT, Begin(WriteSession(s, clock)), max);
    assert [] + [Begin(WriteSession(s, clock))] == [Begin(WriteSession(s, clock))];
    ExecNext([], Begin(WriteSession(s, clock)), max, INIT, mid);
    ExecNext([Begin(WriteSession(s, clock))], Publish(0), max, mid, Next(mid, Publish(0), max));
    WriteThenPublish(INIT, s, clock, max);
    assert [] + [Stamp(FirstEvent(s, clock), 1)] == [Stamp(FirstEvent(s, clock), 1)];
  }

  /** Where a client subscribes, and a session is upserted while it listens. */
  function SubscribeThenUpsert(s: Session, clock: Instant): seq<Step> {
    [Subscribe(0)] + [Begin(WriteSession(s, clock))] + [Publish(0)]
  }

  lemma UpsertCaptures(s: Session, clock: Instant, max: nat)
    requires s.id != "" && max > 0
    ensures var st := Exec(SubscribeThenUpsert(s, clock), max);
            && !st.crashed && |st.subs| == 1 && st.subs[0].open && st.subs[0].closes == 0
            && Stamp(FirstEvent(s, clock), 1) in st.subs[0].pending
  {
    var start, write := [Subscribe(0)], Begin(WriteSession(s, clock));
    var first := Next(INIT, Subscribe(0), max);
    var second := Next(first, write, max);
    assert [] + start == start;
    ExecNext([], Subscribe(0), max, INIT, first);
    ExecNext(start, write, max, first, second);
    ExecNext(start + [write], Publish(0), max, second, Next(second, Publish(0), max));
    WriteThenPublish(first, s, clock, max);
  }

  lemma ExecTwoMore(steps: seq<Step>, a: Step, b: Step, max: nat)
    ensures Exec(steps + [a] + [b], max) == Next(Next(Exec(steps, max), a, max), b, max)
  {
    var st := Exec(steps, max);
    ExecNext(steps, a, max, st, Next(st, a, max));
    ExecNext(steps + [a], b, max, Next(st, a, max), Next(Next(st, a, max), b, max));
  }

  /** A cancel that overtakes a sender: its next send panics. */
  lemma CancelCloses(st: State, act: Act, max: nat)
    requires !st.crashed && |st.subs| == 1 && st.subs[0].open
    requires (act.Send? && act.event in st.subs[0].pending) || (act.Feed? && st.subs[0].backlog != [])
    ensures Next(Next(st, Channel(0, Cancel), max), Channel(0, act), max).crashed
  {
  }

  /** Send-safety fails without patience: an upsert's append captures the channel, cancel closes it, the send panics. */
  lemma CancelDuringSendCrashes(s: Session, clock: Instant, max: nat)
    requires s.id != "" && max > 0
    ensures var send := Channel(0, Send(Stamp(FirstEvent(s, clock), 1)));
            Exec(SubscribeThenUpsert(s, clock) + [Channel(0, Cancel)] + [send], max).crashed
  {
    var steps := SubscribeThenUpsert(s, clock);
    UpsertCaptures(s, clock, max);
    CancelCloses(Exec(steps, max), Send(Stamp(FirstEvent(s, clock), 1)), max);
    ExecTwoMore(steps, Channel(0, Cancel), Channel(0, Send(Stamp(FirstEvent(s, clock), 1))), max);
  }

  lemma SubscribeFindsBacklog(s: Session, clock: Instant, max: nat)
    requires s.id != "" && max > 0
    ensures var st := Exec(Upsert(s, clock) + [Subscribe(0)], max);
            !st.crashed && |st.subs| == 1 && st.subs[0].open && st.subs[0].closes == 0 && st.subs[0].backlog != []
  {
    AfterOneUpsert(s, clock, max);
    var st := Exec(Upsert(s, clock), max);
    FirstSubscriber(st, Stamp(FirstEvent(s, clock), 1), max);
    ExecNext(Upsert(s, clock), Subscribe(0), max, st, Next(st, Subscribe(0), max));
  }

  lemma FirstSubscriber(st: State, e: Event, max: nat)
    requires !st.crashed && st.subs == [] && st.log == Log([e], 1) && e.seqNo == 1
    ensures var after := Next(st, Subscribe(0), max);
            && !after.crashed && |after.subs| == 1 && after.subs[0].open && after.subs[0].closes == 0
            && after.subs[0].backlog == [e]
  {
    BacklogOfOne(st.log, e, max);
  }

  lemma BacklogOfOne(log: Log, e: Event, max: nat)
    requires log == Log([e], 1) && e.seqNo == 1
    ensures NewSub(log, 0, max).backlog == [e]
  {
    AfterSnoc([], e, 0);
    assert [] + [e] == [e];
  }

  /**
   * The same through the backlog: a client subscribes to a store that has an event and goes away
   * before the feeder sends it.
   */
  lemma CancelBeforeFeedCrashes(s: Session, clock: Instant, max: nat)
    requires s.id != "" && max > 0
    ensures Exec(Upsert(s, clock) + [Subscribe(0)] + [Channel(0, Cancel)] + [Channel(0, Feed)], max).crashed
  {
    var steps := Upsert(s, clock) + [Subscribe(0)];
    SubscribeFindsBacklog(s, clock, max);
    CancelCloses(Exec(steps, max), Feed, max);
    ExecTwoMore(steps, Channel(0, Cancel), Channel(0, Feed), max);
  }

  // ----- Lifecycle events -----

  function Subject(e: Event): string {
    if e.kind.WorkspaceDiscovered? || e.kind.WorkspaceUpserted? then e.workspaceId
    else if e.kind.ChildSpawned? || e.kind.EdgeUpserted? || e.kind.EdgeRemoved? then e.edgeId
    else e.sessionId
  }

  function One(e: Event, kind: EventKind, id: string): nat {
    if e.kind == kind && Subject(e) == id then 1 else 0
  }

  /** How many events of a kind are about `id`. */
  function Tally(es: seq<Event>, kind: EventKind, id: string): nat {
    if es == [] then 0 else Tally(es[..|es| - 1], kind, id) + One(es[|es| - 1], kind, id)
  }

  lemma {:induction false} TallyConcat(a: seq<Event>, b: seq<Event>, kind: EventKind, id: string)
    ensures Tally(a + b, kind, id) == Tally(a, kind, id) + Tally(b, kind, id)
    decreases b
  {
    if b == [] {
      assert a + b == a;
    } else {
      TallyConcat(a, b[..|b| - 1], kind, id);
      assert (a + b)[..|a + b| - 1] == a + b[..|b| - 1];
    }
  }

  lemma TallyWithout(es: seq<Event>, k: nat, kind: EventKind, id: string)
    requires k < |es|
    ensures Tally(es, kind, id) == Tally(Without(es, k), kind, id) + One(es[k], kind, id)
  {
    assert es == es[..k] + ([es[k]] + es[k + 1..]);
    TallyConcat(es[..k], [es[k]] + es[k + 1..], kind, id);
    TallyConcat([es[k]], es[k + 1..], kind, id);
    TallyConcat(es[..k], es[k + 1..], kind, id);
    assert [es[k]][..0] == [];
  }

  /** Logged plus in flight. */
  function Total(st: State, kind: EventKind, id: string): nat {
    Tally(st.history, kind, id) + Tally(st.inflight, kind, id)
  }

  ghost predicate LifecycleOf(st: State, id: string) {
    && Total(st, SessionStarted, id) - Total(st, SessionRemoved, id) == (if id in st.sessions then 1 else 0)
    && Total(st, WorkspaceDiscovered, id) == (if id in st.workspaces then 1 else 0)
  }

  lemma StartedTotals(st: State, e: Event, kind: EventKind, id: string)
    ensures Total(Started(st, e), kind, id) == Total(st, kind, id) + One(e, kind, id)
  {
    assert (st.inflight + [e])[..|st.inflight|] == st.inflight;
  }

  lemma AppendedTotals(st: State, e: Event, max: nat, kind: EventKind, id: string)
    ensures Total(Appended(st, e, max), kind, id) == Total(st, kind, id) + One(e, kind, id)
  {
    assert Extend(st.history, e)[..|st.history|] == st.history;
  }

  lemma PublishTotals(st: State, k: nat, max: nat, kind: EventKind, id: string)
    requires k < |st.inflight|
    ensures Total(Appended(st.(inflight := Without(st.inflight, k)), st.inflight[k], max), kind, id)
            == Total(st, kind, id)
  {
    AppendedTotals(st.(inflight := Without(st.inflight, k)), st.inflight[k], max, kind, id);
    TallyWithout(st.inflight, k, kind, id);
  }

  /** The event a map write leaves in flight. */
  lemma WriteKeepsLifecycle(st: State, st': State, e: Event, id: string)
    requires LifecycleOf(st, id)
    requires st'.history == st.history && st'.inflight == st.inflight + [e]
    requires (if id in st'.sessions then 1 else 0) - (if id in st.sessions then 1 else 0)
             == One(e, SessionStarted, id) - One(e, SessionRemoved, id)
    requires (if id in st'.workspaces then 1 else 0) - (if id in st.workspaces then 1 else 0)
             == One(e, WorkspaceDiscovered, id)
    ensures LifecycleOf(st', id)
  {
    StartedTotals(st, e, SessionStarted, id);
    StartedTotals(st, e, SessionRemoved, id);
    StartedTotals(st, e, WorkspaceDiscovered, id);
  }

  lemma PublishKeepsLifecycle(st: State, k: nat, max: nat, id: string)
    requires LifecycleOf(st, id) && k < |st.inflight|
    ensures LifecycleOf(Appended(st.(inflight := Without(st.inflight, k)), st.inflight[k], max), id)
  {
    PublishTotals(st, k, max, SessionStarted, id);
    PublishTotals(st, k, max, SessionRemoved, id);
    PublishTotals(st, k, max, WorkspaceDiscovered, id);
  }

  lemma CustomKeepsLifecycle(st: State, e: Event, max: nat, id: string)
    requires LifecycleOf(st, id) && e.kind.Custom?
    ensures LifecycleOf(Appended(st, e, max), id)
  {
    AppendedTotals(st, e, max, SessionStarted, id);
    AppendedTotals(st, e, max, SessionRemoved, id);
    AppendedTotals(st, e, max, WorkspaceDiscovered, id);
  }

  lemma WrittenKeepsLifecycle(st: State, w: Write, id: string)
    requires LifecycleOf(st, id)
    ensures LifecycleOf(Written(st, w), id)
  {
    var st' := Written(st, w);
    match w
    case WriteSession(session, clock) =>
      if session.id != "" {
        WriteKeepsLifecycle(st, st', SessionEvent(st.sessions, NormalizeSession(session, clock)), id);
      }
    case EraseSession(gone) =>
      if gone in st.sessions { WriteKeepsLifecycle(st, st', SessionRemovedEvent(gone), id); }
    case WriteWorkspace(workspace, clock) =>
      WriteKeepsLifecycle(st, st', WorkspaceEvent(st.workspaces, NormalizeWorkspace(workspace, clock)), id);
    case WriteEdge(edge, clock) =>
      WriteKeepsLifecycle(st, st', EdgeEvent(st.edges, NormalizeEdge(edge, clock)), id);
    case EraseEdge(gone) =>
      if gone in st.edges { WriteKeepsLifecycle(st, st', EdgeRemovedEvent(gone), id); }
  }

  lemma NextKeepsLifecycle(st: State, step: Step, max: nat, id: string)
    requires LifecycleOf(st, id)
    ensures LifecycleOf(Next(st, step, max), id)
  {
    match step
    case Begin(write) => WrittenKeepsLifecycle(st, write, id);
    case Publish(k) => if k < |st.inflight| { PublishKeepsLifecycle(st, k, max, id); }
    case PublishCustom(event) => if event.kind.Custom? { CustomKeepsLifecycle(st, event, max, id); }
    case Subscribe(since) => SameTotals(st, Next(st, step, max), id);
    case Channel(k, act) => SameTotals(st, Next(st, step, max), id);
  }

  lemma SameTotals(st: State, st': State, id: string)
    requires LifecycleOf(st, id)
    requires st'.history == st.history && st'.inflight == st.inflight
    requires st'.sessions == st.sessions && st'.workspaces == st.workspaces
    ensures LifecycleOf(st', id)
  {
  }

  /**
   * In every interleaving, counting logged and in-flight events, a session's starts exceed its
   * removals by one if it is in the store and by none if it is not; a workspace has been
   * discovered once if it is in the store and never if it is not.
   */
  lemma {:induction false} LifecycleConservation(steps: seq<Step>, max: nat, id: string)
    ensures LifecycleOf(Exec(steps, max), id)
  {
    if steps != [] {
      LifecycleConservation(steps[..|steps| - 1], max, id);
      NextKeepsLifecycle(Exec(steps[..|steps| - 1], max), steps[|steps| - 1], max, id);
    }
  }

  // ----- Spawn edges -----

  /** Every write to this edge says that one session spawned another. */
  ghost predicate SpawnOnly(steps: seq<Step>, id: string) {
    forall i :: 0 <= i < |steps| ==> SpawnWrite(steps[i], id)
  }

  ghost predicate SpawnWrite(step: Step, id: string) {
    step.Begin? && step.write.WriteEdge? && NormalizeEdge(step.write.edge, step.write.clock).id == id ==>
      IsSpawnRelation(step.write.edge.relation)
  }

  ghost predicate SpawnBalance(st: State, id: string) {
    Total(st, ChildSpawned, id) - Total(st, EdgeRemoved, id) == if id in st.edges then 1 else 0
  }

  lemma WriteKeepsSpawns(st: State, st': State, e: Event, id: string)
    requires SpawnBalance(st, id) && st'.history == st.history && st'.inflight == st.inflight + [e]
    requires (if id in st'.edges then 1 else 0) - (if id in st.edges then 1 else 0)
             == One(e, ChildSpawned, id) - One(e, EdgeRemoved, id)
    ensures SpawnBalance(st', id)
  {
    StartedTotals(st, e, ChildSpawned, id);
    StartedTotals(st, e, EdgeRemoved, id);
  }

  lemma WrittenKeepsSpawns(st: State, w: Write, id: string)
    requires SpawnBalance(st, id) && SpawnWrite(Begin(w), id)
    ensures SpawnBalance(Written(st, w), id)
  {
    var st' := Written(st, w);
    match w
    case WriteSession(session, clock) =>
      if session.id != "" {
        WriteKeepsSpawns(st, st', SessionEvent(st.sessions, NormalizeSession(session, clock)), id);
      }
    case EraseSession(gone) =>
      if gone in st.sessions { WriteKeepsSpawns(st, st', SessionRemovedEvent(gone), id); }
    case WriteWorkspace(workspace, clock) =>
      WriteKeepsSpawns(st, st', WorkspaceEvent(st.workspaces, NormalizeWorkspace(workspace, clock)), id);
    case WriteEdge(edge, clock) =>
      WriteKeepsSpawns(st, st', EdgeEvent(st.edges, NormalizeEdge(edge, clock)), id);
    case EraseEdge(gone) =>
      if gone in st.edges { WriteKeepsSpawns(st, st', EdgeRemovedEvent(gone), id); }
  }

  lemma NextKeepsSpawns(st: State, step: Step, max: nat, id: string)
    requires SpawnBalance(st, id) && SpawnWrite(step, id)
    ensures SpawnBalance(Next(st, step, max), id)
  {
    match step
    case Begin(write) => WrittenKeepsSpawns(st, write, id);
    case Publish(k) =>
      if k < |st.inflight| {
        PublishTotals(st, k, max, ChildSpawned, id);
        PublishTotals(st, k, max, EdgeRemoved, id);
      }
    case PublishCustom(event) =>
      AppendedTotals(st, event, max, ChildSpawned, id);
      AppendedTotals(st, event, max, EdgeRemoved, id);
    case Subscribe(since) => SameSpawns(st, Next(st, step, max), id);
    case Channel(k, act) => SameSpawns(st, Next(st, step, max), id);
  }

  lemma SameSpawns(st: State, st': State, id: string)
    requires SpawnBalance(st, id) && st'.history == st.history && st'.inflight == st.inflight && st'.edges == st.edges
    ensures SpawnBalance(st', id)
  {
  }

  /**
   * In every interleaving, for an edge that is only ever a spawn edge, the announcements of a
   * spawned child exceed the removals by one if the edge is in the store and by none if not.
   */
  lemma {:induction false} SpawnConservation(steps: seq<Step>, max: nat, id: string)
    requires SpawnOnly(steps, id)
    ensures SpawnBalance(Exec(steps, max), id)
  {
    if steps != [] {
      var front := steps[..|steps| - 1];
      assert SpawnOnly(front, id);
      SpawnConservation(front, max, id);
      assert SpawnWrite(steps[|steps| - 1], id);
      NextKeepsSpawns(Exec(front, max), steps[|steps| - 1], max, id);
    }
  }

  // ----- Serial runs are special interleavings -----

  function WriteOf(op: Op): Write {
    match op
    case PutSession(session, clock) => WriteSession(session, clock)
    case DropSession(id) => EraseSession(id)
    case PutWorkspace(workspace, clock) => WriteWorkspace(workspace, clock)
    case PutEdge(edge, clock) => WriteEdge(edge, clock)
    case DropEdge(id) => EraseEdge(id)
  }

  /** Each operation's append directly follows its map write. */
  function SerialSteps(ops: seq<Op>): seq<Step> {
    if ops == [] then []
    else SerialSteps(ops[..|ops| - 1]) + [Begin(WriteOf(ops[|ops| - 1]))] + [Publish(0)]
  }

  ghost predicate Mirrors(st: State, snap: Snapshot) {
    && st.sessions == snap.sessions && st.workspaces == snap.workspaces && st.edges == snap.edges
    && st.history == snap.history && st.inflight == [] && !st.crashed
  }

  lemma SerialStep(st: State, snap: Snapshot, op: Op, max: nat)
    requires Mirrors(st, snap)
    ensures Mirrors(Next(Next(st, Begin(WriteOf(op)), max), Publish(0), max), Apply(snap, op))
  {
    var mid := Next(st, Begin(WriteOf(op)), max);
    assert |mid.inflight| == 1 ==> Without(mid.inflight, 0) == [];
  }

  /** The one-call-at-a-time store is the interleaved one on the schedule that never overlaps. */
  lemma {:induction false} SerialRunsAreInterleavings(ops: seq<Op>, max: nat)
    ensures Mirrors(Exec(SerialSteps(ops), max), Run(EMPTY, ops))
  {
    if ops != [] {
      var front, op := ops[..|ops| - 1], ops[|ops| - 1];
      SerialRunsAreInterleavings(front, max);
      SerialStep(Exec(SerialSteps(front), max), Run(EMPTY, front), op, max);
      ExecOneMore(SerialSteps(front), Begin(WriteOf(op)), max);
      ExecOneMore(SerialSteps(front) + [Begin(WriteOf(op))], Publish(0), max);
    }
  }
}
