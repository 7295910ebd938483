/** What a walk that ran out of work has covered. */
module RoomWalkClosure {
  import opened Collections
  import opened RoomWalk
  import opened RoomWalkSafety

  // ----- a target server that never loses an event

  /** A reply names every requested id the target could serve when the call was made, and none it
      cannot serve when the reply arrives. */
  predicate LoyalReply(asked: set<EventId>, found: set<EventId>, floor: set<EventId>, served: set<EventId>) {
    asked * floor <= found <= served
  }

  predicate LoyalFetch(room: Room, s: State, step: FetchStep)
    requires FetchEnabled(room, s, step)
  {
    match step
    case FetchReply(found) => LoyalReply(s.fetcher.ids, found, s.fetcher.floor, s.served)
    case FetchPrev(bad) =>
      var asked := Elems(room.event(s.fetcher.cur).prev);
      LoyalReply(asked, asked - Elems(bad), s.fetcher.floor, s.served)
    case FetchAuth(bad) =>
      var asked := Elems(room.event(s.fetcher.cur).auth);
      LoyalReply(asked, asked - Elems(bad), s.fetcher.floor, s.served)
    case _ => true
  }

  predicate Loyal(room: Room, s: State, step: Step)
    requires Enabled(room, s, step)
  {
    match step
    case ByFetcher(f) => LoyalFetch(room, s, f)
    case ByRepair(_) => true
    case ByRetry(t) => t.RetryCheck? && t.hit ==> s.retries[t.k].id in s.served
    case Outside(o) => o.Serve? ==> s.served <= o.now
  }

  ghost predicate LoyalRun(room: Room, s: State, steps: seq<Step>)
    requires ValidRun(room, s, steps)
    decreases |steps|
  {
    steps == [] || (Loyal(room, s, steps[0]) && LoyalRun(room, Apply(room, s, steps[0]), steps[1..]))
  }

  // ----- the invariant

  /** Some queued batch holds the id. */
  ghost predicate Queued(items: seq<Item>, id: EventId) {
    exists i :: 0 <= i < |items| && id in items[i].ids
  }

  function NextBatch(f: Fetcher): set<EventId> {
    match f
    case Walking(round) => round.next
    case AwaitPrev(round, _, _) => round.next
    case AwaitAuth(round, _, _, _, _) => round.next
    case _ => {}
  }

  /** Ancestors of the event in hand that were already reported. */
  function Reported(f: Fetcher): set<EventId> {
    match f
    case AwaitAuth(_, _, prevGood, prevBad, _) => prevGood + Elems(prevBad)
    case _ => {}
  }

  predicate InHand(f: Fetcher, id: EventId) {
    match f
    case AwaitPrev(_, cur, _) => id == cur
    case AwaitAuth(_, cur, _, _, _) => id == cur
    case _ => false
  }

  /** Everything waiting to be fetched can be served. */
  ghost predicate FetchableFetcher(f: Fetcher, served: set<EventId>) {
    && NextBatch(f) <= served
    && match f
       case Fetching(_, ids, floor) => ids <= floor <= served
       case Walking(round) => round.todo <= round.found
       case AwaitPrev(round, _, _) => round.todo <= round.found
       case AwaitAuth(round, _, prevGood, _, _) => round.todo <= round.found && prevGood <= served
       case _ => true
  }

  ghost predicate Fetchable(s: State) {
    && (forall i :: 0 <= i < |s.fetchQ| ==> s.fetchQ[i].ids <= s.served)
    && FetchableFetcher(s.fetcher, s.served)
  }

  /** The id was attempted, is known missing, or will be fetched. */
  ghost predicate Accounted(s: State, id: EventId) {
    id in s.attempted || id in s.error || Queued(s.fetchQ, id) || id in NextBatch(s.fetcher)
  }

  ghost predicate Covered(room: Room, s: State) {
    && (room.start in s.attempted || Queued(s.fetchQ, room.start))
    && s.attempted <= s.ok + Pending(s.fetcher)
    && (forall x, p :: x in s.ok && !InHand(s.fetcher, x) && p in Parents(room.event(x)) ==> Accounted(s, p))
    && (s.fetcher.AwaitAuth? ==> Reported(s.fetcher) == Elems(room.event(s.fetcher.cur).prev))
  }

  // ----- preservation

  lemma FetchableFetch(room: Room, s: State, step: FetchStep)
    requires FetchEnabled(room, s, step) && LoyalFetch(room, s, step) && Fetchable(s)
    ensures Fetchable(ApplyFetch(room, s, step))
  {
  }

  lemma FetchableStep(room: Room, s: State, step: Step)
    requires Enabled(room, s, step) && Loyal(room, s, step) && Fetchable(s)
    ensures Fetchable(Apply(room, s, step))
  {
    match step
    case ByFetcher(f) => FetchableFetch(room, s, f);
    case ByRepair(r) =>
    case ByRetry(t) =>
    case Outside(o) =>
  }

  /** Steps that only add to the places an id can be accounted for keep every id accounted. */
  ghost predicate Grows(s: State, t: State) {
    forall id :: Accounted(s, id) ==> Accounted(t, id)
  }

  lemma QueuedGrows(items: seq<Item>, item: Item)
    ensures forall id :: Queued(items + [item], id) <==> Queued(items, id) || id in item.ids
  {
    forall id
      ensures Queued(items + [item], id) <==> Queued(items, id) || id in item.ids
    {
      if Queued(items, id) {
        var i :| 0 <= i < |items| && id in items[i].ids;
        assert (items + [item])[i] == items[i];
      }
      assert (items + [item])[|items|] == item;
    }
  }

  lemma QueuedShrinks(items: seq<Item>)
    requires items != []
    ensures forall id :: Queued(items, id) ==> id in items[0].ids || Queued(items[1..], id)
  {
    forall id | Queued(items, id)
      ensures id in items[0].ids || Queued(items[1..], id)
    {
      var i :| 0 <= i < |items| && id in items[i].ids;
      if i > 0 {
        assert items[1..][i - 1] == items[i];
      }
    }
  }

  lemma CoveredGet(room: Room, s: State)
    requires s.fetcher.FetchIdle? && s.fetchQ != [] && Covered(room, s)
    ensures Covered(room, DoFetchGet(s))
  {
    QueuedShrinks(s.fetchQ);
    var t := DoFetchGet(s);
    forall id | Accounted(s, id)
      ensures Accounted(t, id)
    {
      assert id in s.fetchQ[0].ids ==> id in t.attempted;
    }
  }

  lemma CoveredReply(room: Room, s: State, found: set<EventId>)
    requires FetchEnabled(room, s, FetchReply(found)) && Covered(room, s)
    ensures Covered(room, ApplyFetch(room, s, FetchReply(found)))
  {
    assert Grows(s, ApplyFetch(room, s, FetchReply(found)));
  }

  lemma CoveredPick(room: Room, s: State, cur: EventId)
    requires FetchEnabled(room, s, FetchPick(cur)) && Fetchable(s) && Covered(room, s)
    ensures Covered(room, DoFetchPick(s, cur))
  {
    assert Grows(s, DoFetchPick(s, cur));
  }

  lemma CoveredPrev(room: Room, s: State, bad: seq<EventId>)
    requires FetchEnabled(room, s, FetchPrev(bad)) && Covered(room, s)
    ensures Covered(room, DoFetchPrev(room, s, bad))
  {
    assert Grows(s, DoFetchPrev(room, s, bad));
  }

  lemma CoveredAuth(room: Room, s: State, bad: seq<EventId>)
    requires FetchEnabled(room, s, FetchAuth(bad)) && Covered(room, s)
    ensures Covered(room, DoFetchAuth(room, s, bad))
  {
    var f, t := s.fetcher, DoFetchAuth(room, s, bad);
    ElemsOfConcat(f.prevBad, bad);
    assert Grows(s, t);
    forall p | p in Parents(room.event(f.cur))
      ensures Accounted(t, p)
    {
    }
  }

  lemma CoveredFinish(room: Room, s: State)
    requires FetchEnabled(room, s, FetchFinish) && Covered(room, s)
    ensures Covered(room, DoFetchFinish(s))
  {
    QueuedGrows(s.fetchQ, Item(false, s.fetcher.round.next));
    assert Grows(s, DoFetchFinish(s));
  }

  lemma CoveredFetch(room: Room, s: State, step: FetchStep)
    requires FetchEnabled(room, s, step) && Fetchable(s) && Covered(room, s)
    ensures Covered(room, ApplyFetch(room, s, step))
  {
    match step
    case FetchGet => CoveredGet(room, s);
    case FetchReply(found) => CoveredReply(room, s, found);
    case FetchPick(cur) => CoveredPick(room, s, cur);
    case FetchPrev(bad) => CoveredPrev(room, s, bad);
    case FetchAuth(bad) => CoveredAuth(room, s, bad);
    case FetchFinish => CoveredFinish(room, s);
    case FetchQuit => assert Grows(s, ApplyFetch(room, s, step));
  }

  lemma CoveredRepair(room: Room, s: State, step: RepairStep)
    requires RepairEnabled(room, s, step) && Covered(room, s)
    ensures Covered(room, ApplyRepair(room, s, step))
  {
    assert Grows(s, ApplyRepair(room, s, step));
  }

  lemma CoveredRetry(room: Room, s: State, step: RetryStep)
    requires RetryEnabled(s, step) && Covered(room, s)
    ensures Covered(room, ApplyRetry(s, step))
  {
    QueuedGrows(s.fetchQ, Item(true, {s.retries[step.k].id}));
    assert Grows(s, ApplyRetry(s, step));
  }

  lemma CoveredOutside(room: Room, s: State, step: OutsideStep)
    requires Covered(room, s)
    ensures Covered(room, ApplyOutside(s, step))
  {
    assert Grows(s, ApplyOutside(s, step));
  }

  lemma CoveredStep(room: Room, s: State, step: Step)
    requires Enabled(room, s, step) && Fetchable(s) && Covered(room, s)
    ensures Covered(room, Apply(room, s, step))
  {
    match step
    case ByFetcher(f) => CoveredFetch(room, s, f);
    case ByRepair(r) => CoveredRepair(room, s, r);
    case ByRetry(r) => CoveredRetry(room, s, r);
    case Outside(o) => CoveredOutside(room, s, o);
  }

  lemma {:induction false} CoveredOverRun(room: Room, s: State, steps: seq<Step>)
    requires ValidRun(room, s, steps) && LoyalRun(room, s, steps) && Fetchable(s) && Covered(room, s)
    ensures Fetchable(End(room, s, steps)) && Covered(room, End(room, s, steps))
    decreases |steps|
  {
    if steps != [] {
      FetchableStep(room, s, steps[0]);
      CoveredStep(room, s, steps[0]);
      CoveredOverRun(room, Apply(room, s, steps[0]), steps[1..]);
    }
  }

  // ----- closure

  ghost predicate OutOfWork(s: State) {
    s.fetchQ == [] && !FetcherBusy(s.fetcher)
  }

  /** Once the fetcher has run dry, the start event is OK and every parent of an OK event is itself OK
      or recorded as missing. */
  lemma WalkIsClosed(room: Room, served: set<EventId>, steps: seq<Step>)
    requires room.start in served
    requires ValidRun(room, Init(room, served), steps) && LoyalRun(room, Init(room, served), steps)
    requires OutOfWork(End(room, Init(room, served), steps))
    ensures var s := End(room, Init(room, served), steps);
            && room.start in s.ok
            && forall x, p :: x in s.ok && p in Parents(room.event(x)) ==> p in s.ok + s.error
  {
    var s, e := Init(room, served), End(room, Init(room, served), steps);
    assert s.fetchQ[0].ids == {room.start};
    CoveredOverRun(room, s, steps);
    forall id | Accounted(e, id)
      ensures id in e.ok + e.error
    {
    }
  }

  // ----- every missing event is searched for

  /** Each missing id was searched for, waits on the error queue, or waits in the current hunt. */
  ghost predicate Searched(s: State) {
    && s.control != Stopped
    && (s.repair.Sending? ==> s.repair.hunt.queue == [])
    && forall id :: id in s.error ==>
         id in s.tried || id in s.errorQ || (HasHunt(s.repair) && id in s.repair.hunt.queue)
  }

  lemma SearchedFetch(room: Room, s: State, step: FetchStep)
    requires FetchEnabled(room, s, step) && Searched(s)
    ensures Searched(ApplyFetch(room, s, step))
  {
    if step.FetchAuth? {
      var order := s.fetcher.prevBad + step.bad;
      FreshElems(order, s.error);
      forall id | id in order && id !in s.error
        ensures id in s.errorQ + Fresh(order, s.error)
      {
        assert id in Elems(order) - s.error;
      }
    }
  }

  lemma SearchedRepair(room: Room, s: State, step: RepairStep)
    requires RepairEnabled(room, s, step) && Searched(s)
    ensures Searched(ApplyRepair(room, s, step))
  {
    match step
    case RepairGet =>
      assert forall id :: id in s.errorQ ==> id == s.errorQ[0] || id in s.errorQ[1..];
    case RepairPop =>
      var queue := s.repair.hunt.queue;
      if queue != [] {
        assert forall id :: id in queue ==> id == queue[0] || id in queue[1..];
      }
    case _ =>
  }

  lemma SearchedStep(room: Room, s: State, step: Step)
    requires Enabled(room, s, step) && Searched(s) && step != Outside(Press(Stopped))
    ensures Searched(Apply(room, s, step))
  {
    match step
    case ByFetcher(f) => SearchedFetch(room, s, f);
    case ByRepair(r) => SearchedRepair(room, s, r);
    case ByRetry(t) =>
    case Outside(o) =>
  }

  lemma {:induction false} SearchedOverRun(room: Room, s: State, steps: seq<Step>)
    requires ValidRun(room, s, steps) && Searched(s)
    requires forall i :: 0 <= i < |steps| ==> steps[i] != Outside(Press(Stopped))
    ensures Searched(End(room, s, steps))
    decreases |steps|
  {
    if steps != [] {
      SearchedStep(room, s, steps[0]);
      SearchedOverRun(room, Apply(room, s, steps[0]), steps[1..]);
    }
  }

  /** If nobody stops the walk, then whenever the repair worker has run dry every missing event has been
      searched for on the donor servers, exactly once. */
  lemma MissingAreSearchedOnce(room: Room, served: set<EventId>, steps: seq<Step>)
    requires ValidRun(room, Init(room, served), steps)
    requires forall i :: 0 <= i < |steps| ==> steps[i] != Outside(Press(Stopped))
    ensures var s := End(room, Init(room, served), steps);
            s.errorQ == [] && !HasHunt(s.repair) ==> s.error <= Elems(s.log.searches) && NoDup(s.log.searches)
  {
    WalkSets(room, served, steps);
    SearchedOverRun(room, Init(room, served), steps);
  }

  /** A path from an event to one of its parents at every step. */
  ghost predicate ParentPath(room: Room, path: seq<EventId>) {
    && path != []
    && forall i :: 0 <= i < |path| - 1 ==> path[i + 1] in Parents(room.event(path[i]))
  }

  /** Along any ancestor path all ids are OK up to the first one recorded as missing, if there is one. */
  ghost predicate OkUntilMissing(s: State, path: seq<EventId>) {
    || (forall i :: 0 <= i < |path| ==> path[i] in s.ok)
    || (exists m :: 0 <= m < |path| && path[m] in s.error && forall i :: 0 <= i < m ==> path[i] in s.ok)
  }

  lemma {:induction false} ClosedAlongPath(room: Room, s: State, path: seq<EventId>)
    requires forall x, p :: x in s.ok && p in Parents(room.event(x)) ==> p in s.ok + s.error
    requires ParentPath(room, path) && path[0] in s.ok
    ensures OkUntilMissing(s, path)
  {
    if |path| > 1 {
      var front, last := path[..|path| - 1], |path| - 1;
      ClosedAlongPath(room, s, front);
      if forall i :: 0 <= i < |front| ==> front[i] in s.ok {
        var x, p := path[last - 1], path[last];
        assert x == front[last - 1] && p == path[last - 1 + 1] && p in Parents(room.event(x));
        assert p in s.ok + s.error;
        assert forall i :: 0 <= i < last ==> path[i] == front[i];
        assert forall i :: 0 <= i < |path| ==> i == last || path[i] in s.ok;
      } else {
        var m :| 0 <= m < |front| && front[m] in s.error && forall i :: 0 <= i < m ==> front[i] in s.ok;
        assert path[m] == front[m] && forall i :: 0 <= i < m ==> path[i] == front[i];
      }
    }
  }

  /** The whole story: when the status loop ends a walk for want of work, on a target that never lost
      an event, every ancestor path from the start is OK up to the first missing event on it. */
  lemma FinishedWalkCoversAncestors(room: Room, served: set<EventId>, steps: seq<Step>, path: seq<EventId>)
    requires room.start in served
    requires ValidRun(room, Init(room, served), steps) && LoyalRun(room, Init(room, served), steps)
    requires var s := End(room, Init(room, served), steps);
             !s.finished && s.control != Stopped && DoTick(s).finished
    requires ParentPath(room, path) && path[0] == room.start
    ensures OkUntilMissing(End(room, Init(room, served), steps), path)
  {
    IdleIsSound(room, served, steps);
    WalkIsClosed(room, served, steps);
    ClosedAlongPath(room, End(room, Init(room, served), steps), path);
  }
}
