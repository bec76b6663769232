/**
 * The bounded event log: numbering, trimming, the `since`/`limit` query and a client that
 * polls it with a cursor. `history` is every event ever appended; the store keeps a suffix.
 */
module EventLog {
  import opened Model

  datatype Log = Log(events: seq<Event>, nextSeq: nat)

  const EMPTY_LOG := Log([], 0)

  function Min(a: int, b: int): int { if a < b then a else b }

  function Max(a: int, b: int): int { if a < b then b else a }

  /** The critical section of appendEvent: number the event, append it, trim the front. */
  function Append(log: Log, e: Event, max: nat): Log {
    var all := log.events + [Stamp(e, log.nextSeq + 1)];
    Log(if |all| > max then all[|all| - max..] else all, log.nextSeq + 1)
  }

  function Stamp(e: Event, n: nat): Event { e.(seqNo := n) }

  /** History after one more append. */
  function Extend(history: seq<Event>, e: Event): seq<Event> {
    history + [Stamp(e, |history| + 1)]
  }

  ghost predicate Numbered(history: seq<Event>) {
    forall i :: 0 <= i < |history| ==> history[i].seqNo == i + 1
  }

  function Retained(history: seq<Event>, max: nat): seq<Event> {
    history[|history| - Min(|history|, max)..]
  }

  /** The log holds the last min(nextSeq, max) events of a history numbered 1, 2, ... nextSeq. */
  ghost predicate Represents(log: Log, history: seq<Event>, max: nat) {
    log.nextSeq == |history| && Numbered(history) && log.events == Retained(history, max)
  }

  lemma AppendRepresents(log: Log, history: seq<Event>, max: nat, e: Event)
    requires Represents(log, history, max)
    ensures Represents(Append(log, e, max), Extend(history, e), max)
  {
    var h' := Extend(history, e);
    var all := log.events + [Stamp(e, log.nextSeq + 1)];
    assert all == h'[|history| - Min(|history|, max)..];
  }

  /** All events come from appending to the empty log. */
  function AppendAll(log: Log, es: seq<Event>, max: nat): Log {
    if es == [] then log else Append(AppendAll(log, es[..|es| - 1], max), es[|es| - 1], max)
  }

  function NumberAll(es: seq<Event>): (h: seq<Event>)
    ensures |h| == |es|
  {
    if es == [] then [] else Extend(NumberAll(es[..|es| - 1]), es[|es| - 1])
  }

  lemma {:induction false} AppendAllRepresents(es: seq<Event>, max: nat)
    ensures Represents(AppendAll(EMPTY_LOG, es, max), NumberAll(es), max)
  {
    if es != [] {
      var front := es[..|es| - 1];
      AppendAllRepresents(front, max);
      AppendRepresents(AppendAll(EMPTY_LOG, front, max), NumberAll(front), max, es[|es| - 1]);
    }
  }

  /**
   * Over every run: the retained log is the suffix of length min(n, max) of the n events
   * appended, its sequence numbers are contiguous and the last one is nextSeq.
   */
  lemma {:induction false} LogInvariant(es: seq<Event>, max: nat)
    ensures var log := AppendAll(EMPTY_LOG, es, max);
            && log.nextSeq == |es|
            && |log.events| == Min(|es|, max)
            && forall i :: 0 <= i < |log.events| ==>
                 var n := |es| - |log.events| + i;
                 log.events[i] == Stamp(es[n], n + 1)
  {
    AppendAllRepresents(es, max);
    var log, h := AppendAll(EMPTY_LOG, es, max), NumberAll(es);
    var start := |es| - Min(|es|, max);
    assert log.events == h[start..];
    forall i | 0 <= i < |log.events| ensures log.events[i] == Stamp(es[start + i], start + i + 1) {
      NumberAllIs(es);
      assert log.events[i] == h[start + i];
    }
  }

  lemma {:induction false} NumberAllIs(es: seq<Event>)
    ensures forall i :: 0 <= i < |es| ==> NumberAll(es)[i] == Stamp(es[i], i + 1)
  {
    if es != [] {
      NumberAllIs(es[..|es| - 1]);
    }
  }

  /** The filtering loop shared by ListEvents and Subscribe. */
  function After(events: seq<Event>, since: int): seq<Event> {
    if events == [] then []
    else
      var rest := After(events[..|events| - 1], since);
      var e := events[|events| - 1];
      if e.seqNo > since then rest + [e] else rest
  }

  /** The final trim of ListEvents. */
  function Newest(events: seq<Event>, limit: int): seq<Event> {
    if limit > 0 && |events| > limit then events[|events| - limit..] else events
  }

  /** Index in the full history of the first event a query returns. */
  function WindowStart(n: nat, max: nat, since: int, limit: int): (start: nat)
    ensures start <= n
  {
    var oldest := n - Min(n, max);
    var from := Min(n, Max(oldest, since));
    if limit > 0 then Max(from, n - limit) else from
  }

  lemma AfterSnoc(xs: seq<Event>, e: Event, since: int)
    ensures After(xs + [e], since) == After(xs, since) + (if e.seqNo > since then [e] else [])
  {
    assert (xs + [e])[..|xs|] == xs;
  }

  lemma SliceSnoc(h: seq<Event>, lo: nat, hi: nat)
    requires lo < hi <= |h|
    ensures h[lo..hi] == h[lo..hi - 1] + [h[hi - 1]]
  {
  }

  /** Filtering a slice of a numbered history by sequence number is slicing it. */
  lemma {:induction false} AfterIsSlice(h: seq<Event>, lo: nat, hi: nat, since: int)
    requires Numbered(h) && lo <= hi <= |h|
    ensures After(h[lo..hi], since) == h[Min(hi, Max(lo, since))..hi]
    decreases hi - lo
  {
    if lo < hi {
      AfterIsSlice(h, lo, hi - 1, since);
      SliceSnoc(h, lo, hi);
      AfterSnoc(h[lo..hi - 1], h[hi - 1], since);
      var start := Min(hi, Max(lo, since));
      if start < hi { SliceSnoc(h, start, hi); }
    }
  }

  /** Filter-then-trim over the retained log is one slice of the full history. */
  lemma QueryIsWindow(h: seq<Event>, max: nat, since: int, limit: int)
    requires Numbered(h)
    ensures Newest(After(Retained(h, max), since), limit) == h[WindowStart(|h|, max, since, limit)..]
  {
    FilterIsWindow(h, max, since);
    NewestIsSlice(h, WindowStart(|h|, max, since, 0), limit);
  }

  lemma FilterIsWindow(h: seq<Event>, max: nat, since: int)
    requires Numbered(h)
    ensures After(Retained(h, max), since) == h[WindowStart(|h|, max, since, 0)..]
  {
    var n := |h|;
    var lo := n - Min(n, max);
    AfterIsSlice(h, lo, n, since);
    assert Retained(h, max) == h[lo..n];
  }

  lemma NewestIsSlice(h: seq<Event>, from: nat, limit: int)
    requires from <= |h|
    ensures Newest(h[from..], limit) == h[if limit > 0 then Max(from, |h| - limit) else from..]
  {
  }

  // ----- A client that polls ListEvents(cursor, 0) and remembers the last number it saw -----

  datatype Client = Client(received: seq<Event>, cursor: nat)

  /** One poll, made when the first `n` events of the history have been appended. */
  function Poll(c: Client, h: seq<Event>, max: nat, n: nat): Client {
    var batch := After(Retained(h[..Min(n, |h|)], max), c.cursor);
    Client(c.received + batch, if batch == [] then c.cursor else batch[|batch| - 1].seqNo)
  }

  ghost predicate PollTimes(polls: seq<nat>, n: nat) {
    && (forall i :: 0 <= i < |polls| ==> polls[i] <= n)
    && (forall i, j :: 0 <= i < j < |polls| ==> polls[i] <= polls[j])
  }

  function Polling(h: seq<Event>, max: nat, polls: seq<nat>): Client {
    if polls == [] then Client([], 0)
    else Poll(Polling(h, max, polls[..|polls| - 1]), h, max, polls[|polls| - 1])
  }

  function LastPoll(polls: seq<nat>): nat { if polls == [] then 0 else polls[|polls| - 1] }

  /** Events appended between poll i - 1 and poll i. */
  function Gap(polls: seq<nat>, i: nat): int
    requires i < |polls|
  {
    polls[i] - LastPoll(polls[..i])
  }

  /** What one poll adds: everything since the previous poll except the evicted prefix. */
  lemma PollAdds(c: Client, h: seq<Event>, max: nat, n: nat)
    requires Numbered(h) && max > 0 && c.cursor <= n <= |h|
    ensures Poll(c, h, max, n) == Client(c.received + h[Max(c.cursor, n - max)..n], n)
  {
    var start := Max(c.cursor, n - max);
    BatchIs(c.cursor, h, max, n);
    if start < n { LastOfSlice(h, start, n); }
  }

  lemma BatchIs(cursor: nat, h: seq<Event>, max: nat, n: nat)
    requires Numbered(h) && max > 0 && cursor <= n <= |h|
    ensures After(Retained(h[..n], max), cursor) == h[Max(cursor, n - max)..n]
  {
    FilterIsWindow(h[..n], max, cursor);
  }

  lemma LastOfSlice(h: seq<Event>, lo: nat, hi: nat)
    requires Numbered(h) && lo < hi <= |h|
    ensures h[lo..hi] != [] && h[lo..hi][|h[lo..hi]| - 1].seqNo == hi
  {
  }

  /** The cursor always equals the last poll time. */
  lemma {:induction false} CursorFollows(h: seq<Event>, max: nat, polls: seq<nat>)
    requires Numbered(h) && max > 0 && PollTimes(polls, |h|)
    ensures Polling(h, max, polls).cursor == LastPoll(polls)
  {
    if polls != [] {
      var front := polls[..|polls| - 1];
      PollTimesFront(polls, |h|);
      CursorFollows(h, max, front);
      PollAdds(Polling(h, max, front), h, max, polls[|polls| - 1]);
    }
  }

  /** Increasing sequence numbers: no event is received twice and none out of order. */
  ghost predicate InOrder(es: seq<Event>) {
    forall i, j :: 0 <= i < j < |es| ==> es[i].seqNo < es[j].seqNo
  }

  /** Event number `n` was still retained at the first poll that followed it. */
  ghost predicate Caught(polls: seq<nat>, max: nat, n: nat) {
    exists i :: 0 <= i < |polls| && LastPoll(polls[..i]) < n <= polls[i] && polls[i] - max < n
  }

  /** The last poll adds a slice of the history to what the earlier polls took. */
  lemma LastPollAdds(h: seq<Event>, max: nat, polls: seq<nat>)
    requires Numbered(h) && max > 0 && PollTimes(polls, |h|) && polls != []
    ensures var front := polls[..|polls| - 1];
            var p := polls[|polls| - 1];
            var prev := LastPoll(front);
            && prev <= p <= |h|
            && Polling(h, max, polls).received == Polling(h, max, front).received + h[Max(prev, p - max)..p]
  {
    var front := polls[..|polls| - 1];
    PollTimesFront(polls, |h|);
    CursorFollows(h, max, front);
    var c := Polling(h, max, front);
    PollAdds(c, h, max, polls[|polls| - 1]);
  }

  lemma PollTimesFront(polls: seq<nat>, n: nat)
    requires PollTimes(polls, n) && polls != []
    ensures PollTimes(polls[..|polls| - 1], n)
    ensures LastPoll(polls[..|polls| - 1]) <= polls[|polls| - 1] <= n
  {
  }

  /** What the client holds: genuine events in order, none twice, none past the last poll. */
  ghost predicate Faithful(got: seq<Event>, h: seq<Event>, last: nat) {
    && InOrder(got)
    && (forall i :: 0 <= i < |got| ==>
          1 <= got[i].seqNo <= last && got[i].seqNo <= |h| && got[i] == h[got[i].seqNo - 1])
  }

  lemma FaithfulExtends(got: seq<Event>, h: seq<Event>, last: nat, lo: nat, hi: nat)
    requires Numbered(h) && Faithful(got, h, last) && last <= lo <= hi <= |h|
    ensures Faithful(got + h[lo..hi], h, hi)
  {
    var all := got + h[lo..hi];
    forall i | 0 <= i < |all|
      ensures 1 <= all[i].seqNo <= hi && all[i] == h[all[i].seqNo - 1]
      ensures i < |got| ==> all[i].seqNo <= last
      ensures i >= |got| ==> all[i].seqNo == lo + (i - |got|) + 1
    {
      if i >= |got| { assert all[i] == h[lo + (i - |got|)]; }
    }
  }

  /** The client gets events in order and without repetition. */
  lemma {:induction false} PollingInOrder(h: seq<Event>, max: nat, polls: seq<nat>)
    requires Numbered(h) && max > 0 && PollTimes(polls, |h|)
    ensures Faithful(Polling(h, max, polls).received, h, LastPoll(polls))
  {
    if polls != [] {
      var front := polls[..|polls| - 1];
      var p := polls[|polls| - 1];
      PollTimesFront(polls, |h|);
      LastPollAdds(h, max, polls);
      PollingInOrder(h, max, front);
      var prev := LastPoll(front);
      var lo := Max(prev, p - max);
      var got := Polling(h, max, front).received;
      FaithfulExtends(got, h, prev, lo, p);
      assert Polling(h, max, polls).received == got + h[lo..p];
    }
  }

  /** It gets exactly the events that were not evicted before the first poll after them. */
  lemma {:induction false} PollingMissesOnlyEvicted(h: seq<Event>, max: nat, polls: seq<nat>, n: nat)
    requires Numbered(h) && max > 0 && PollTimes(polls, |h|) && 1 <= n <= |h|
    ensures h[n - 1] in Polling(h, max, polls).received <==> Caught(polls, max, n)
  {
    if polls != [] {
      var k := |polls| - 1;
      PollTimesFront(polls, |h|);
      LastPollAdds(h, max, polls);
      PollingMissesOnlyEvicted(h, max, polls[..k], n);
      CaughtSplit(polls, max, n);
      InSlice(h, Max(LastPoll(polls[..k]), polls[k] - max), polls[k], n);
    }
  }

  lemma InSlice(h: seq<Event>, lo: nat, hi: nat, n: nat)
    requires Numbered(h) && lo <= hi <= |h| && 1 <= n <= |h|
    ensures h[n - 1] in h[lo..hi] <==> lo < n <= hi
  {
    if lo < n <= hi { assert h[lo..hi][n - 1 - lo] == h[n - 1]; }
  }

  lemma CaughtSplit(polls: seq<nat>, max: nat, n: nat)
    requires polls != []
    ensures var k := |polls| - 1;
            Caught(polls, max, n) <==>
            Caught(polls[..k], max, n) || (LastPoll(polls[..k]) < n <= polls[k] && polls[k] - max < n)
  {
    var k := |polls| - 1;
    assert forall i :: 0 <= i < k ==> polls[..k][..i] == polls[..i];
    if Caught(polls[..k], max, n) {
      var i :| 0 <= i < k && LastPoll(polls[..k][..i]) < n <= polls[..k][i] && polls[..k][i] - max < n;
      assert LastPoll(polls[..i]) < n <= polls[i] && polls[i] - max < n;
    }
    if Caught(polls, max, n) {
      var i :| 0 <= i < |polls| && LastPoll(polls[..i]) < n <= polls[i] && polls[i] - max < n;
      if i < k { assert LastPoll(polls[..k][..i]) < n <= polls[..k][i]; }
    }
  }

  /** Nothing is missed exactly when at most `max` events are appended between polls. */
  lemma {:induction false} PollingCompleteIff(h: seq<Event>, max: nat, polls: seq<nat>)
    requires Numbered(h) && max > 0 && PollTimes(polls, |h|)
    ensures Polling(h, max, polls).received == h[..LastPoll(polls)] <==> SmallGaps(polls, max)
    ensures |Polling(h, max, polls).received| <= LastPoll(polls)
  {
    if polls != [] {
      var k := |polls| - 1;
      PollTimesFront(polls, |h|);
      LastPollAdds(h, max, polls);
      PollingCompleteIff(h, max, polls[..k]);
      SmallGapsSplit(polls, max);
      var prev := LastPoll(polls[..k]);
      SplitPrefix(Polling(h, max, polls[..k]).received, h, prev, Max(prev, polls[k] - max), polls[k]);
    }
  }

  ghost predicate SmallGaps(polls: seq<nat>, max: nat) {
    forall i :: 0 <= i < |polls| ==> Gap(polls, i) <= max
  }

  lemma SmallGapsSplit(polls: seq<nat>, max: nat)
    requires polls != []
    ensures var k := |polls| - 1;
            SmallGaps(polls, max) <==> SmallGaps(polls[..k], max) && Gap(polls, k) <= max
  {
    var k := |polls| - 1;
    assert forall i :: 0 <= i < k ==> polls[..k][..i] == polls[..i];
    assert forall i :: 0 <= i < k ==> Gap(polls[..k], i) == Gap(polls, i);
  }

  lemma SplitPrefix(got: seq<Event>, h: seq<Event>, prev: nat, lo: nat, hi: nat)
    requires prev <= lo <= hi <= |h| && |got| <= prev
    ensures got + h[lo..hi] == h[..hi] <==> got == h[..prev] && lo == prev
  {
    if got + h[lo..hi] == h[..hi] {
      assert |got| + (hi - lo) == hi;
      assert got == (got + h[lo..hi])[..prev] == h[..hi][..prev];
    }
  }
}
