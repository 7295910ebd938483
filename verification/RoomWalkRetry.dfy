/** What becomes of a repair: the retry worker a hunt gets, how often that asks, and what its success leads to. */
module RoomWalkRetry {
  import opened Collections
  import opened RoomWalk
  import opened RoomWalkSafety
  import opened RoomWalkClosure
  import opened RepairOrder
  import opened RoomWalkEnding

  // ----- what happened in a run

  /** The ids whose retry worker was told by the target that it now has them. */
  ghost function Hits(room: Room, s: State, steps: seq<Step>): set<EventId>
    requires ValidRun(room, s, steps)
    decreases |steps|
  {
    if steps == [] then {}
    else HitBy(s, steps[0]) + Hits(room, Apply(room, s, steps[0]), steps[1..])
  }

  ghost function HitBy(s: State, step: Step): set<EventId> {
    match step
    case ByRetry(RetryCheck(k, hit)) => if hit && k < |s.retries| then {s.retries[k].id} else {}
    case _ => {}
  }

  /** The ids hunted for by the hunts that ended with something collected, in order. */
  ghost function Repaired(room: Room, s: State, steps: seq<Step>): seq<EventId>
    requires ValidRun(room, s, steps)
    decreases |steps|
  {
    if steps == [] then []
    else RepairedBy(s, steps[0]) + Repaired(room, Apply(room, s, steps[0]), steps[1..])
  }

  ghost function RepairedBy(s: State, step: Step): seq<EventId> {
    if step == ByRepair(RepairFinish) && HasHunt(s.repair) && s.repair.hunt.collected != [] then [s.repair.hunt.root]
    else []
  }

  /** How often retry worker `k` was told that the target lacks the event. */
  ghost function Misses(steps: seq<Step>, k: nat): nat {
    if steps == [] then 0
    else (if steps[0] == ByRetry(RetryCheck(k, false)) then 1 else 0) + Misses(steps[1..], k)
  }

  // ----- a hit is fetched again and resolved

  ghost predicate RetryQueued(items: seq<Item>, id: EventId) {
    exists i :: 0 <= i < |items| && items[i].retry && id in items[i].ids
  }

  ghost predicate InRetryRound(f: Fetcher, id: EventId) {
    OnRetry(f) && id in Pending(f)
  }

  /** The id is resolved, or a retry of it is on its way. */
  ghost predicate Handled(s: State, id: EventId) {
    id in s.resolved || RetryQueued(s.fetchQ, id) || InRetryRound(s.fetcher, id)
  }

  lemma RetryQueuedGrows(items: seq<Item>, item: Item, id: EventId)
    ensures RetryQueued(items + [item], id) <==> RetryQueued(items, id) || (item.retry && id in item.ids)
  {
    if RetryQueued(items, id) {
      var i :| 0 <= i < |items| && items[i].retry && id in items[i].ids;
      assert (items + [item])[i] == items[i];
    }
    assert (items + [item])[|items|] == item;
  }

  lemma RetryQueuedShrinks(items: seq<Item>, id: EventId)
    requires items != []
    ensures RetryQueued(items, id) <==> RetryQueued(items[1..], id) || (items[0].retry && id in items[0].ids)
  {
    if RetryQueued(items, id) {
      var i :| 0 <= i < |items| && items[i].retry && id in items[i].ids;
      if i > 0 {
        assert items[1..][i - 1] == items[i];
      }
    }
    if i :| 0 <= i < |items[1..]| && items[1..][i].retry && id in items[1..][i].ids {
      assert items[i + 1] == items[1..][i];
    }
  }

  lemma HandledFetch(room: Room, s: State, step: FetchStep, id: EventId)
    requires FetchEnabled(room, s, step) && LoyalFetch(room, s, step) && Fetchable(s) && Handled(s, id)
    ensures Handled(ApplyFetch(room, s, step), id)
  {
    match step
    case FetchGet => RetryQueuedShrinks(s.fetchQ, id);
    case FetchFinish => RetryQueuedGrows(s.fetchQ, Item(false, s.fetcher.round.next), id);
    case _ =>
  }

  lemma HandledStep(room: Room, s: State, step: Step, id: EventId)
    requires Enabled(room, s, step) && Loyal(room, s, step) && Fetchable(s)
    requires Handled(s, id) || id in HitBy(s, step)
    ensures Handled(Apply(room, s, step), id)
  {
    match step
    case ByFetcher(f) => HandledFetch(room, s, f, id);
    case ByRepair(r) =>
    case ByRetry(t) => HandledRetry(room, s, t, id);
    case Outside(o) =>
  }

  lemma HandledRetry(room: Room, s: State, step: RetryStep, id: EventId)
    requires RetryEnabled(s, step)
    requires Handled(s, id) || id in HitBy(s, ByRetry(step))
    ensures Handled(ApplyRetry(s, step), id)
  {
    if step.RetryCheck? {
      RetryQueuedGrows(s.fetchQ, Item(true, {s.retries[step.k].id}), id);
    }
  }

  lemma {:induction false} HandledOverRun(room: Room, s: State, steps: seq<Step>, id: EventId)
    requires ValidRun(room, s, steps) && LoyalRun(room, s, steps) && Fetchable(s)
    requires Handled(s, id) || id in Hits(room, s, steps)
    ensures Handled(End(room, s, steps), id)
    decreases |steps|
  {
    if steps != [] {
      FetchableStep(room, s, steps[0]);
      if Handled(s, id) || id in HitBy(s, steps[0]) {
        HandledStep(room, s, steps[0], id);
      }
      HandledOverRun(room, Apply(room, s, steps[0]), steps[1..], id);
    }
  }

  // ----- nothing else is resolved

  ghost predicate OnlyHits(s: State, hits: set<EventId>) {
    && s.resolved <= hits
    && (OnRetry(s.fetcher) ==> Pending(s.fetcher) <= hits)
    && forall i :: 0 <= i < |s.fetchQ| && s.fetchQ[i].retry ==> s.fetchQ[i].ids <= hits
  }

  lemma OnlyHitsFetch(room: Room, s: State, step: FetchStep, hits: set<EventId>)
    requires FetchEnabled(room, s, step) && OnlyHits(s, hits)
    ensures OnlyHits(ApplyFetch(room, s, step), hits)
  {
  }

  lemma OnlyHitsStep(room: Room, s: State, step: Step, hits: set<EventId>)
    requires Enabled(room, s, step) && OnlyHits(s, hits)
    ensures OnlyHits(Apply(room, s, step), hits + HitBy(s, step))
  {
    match step
    case ByFetcher(f) => OnlyHitsFetch(room, s, f, hits);
    case ByRepair(r) =>
    case ByRetry(t) =>
    case Outside(o) =>
  }

  lemma {:induction false} OnlyHitsOverRun(room: Room, s: State, steps: seq<Step>, hits: set<EventId>)
    requires ValidRun(room, s, steps) && OnlyHits(s, hits)
    ensures OnlyHits(End(room, s, steps), hits + Hits(room, s, steps))
    decreases |steps|
  {
    if steps != [] {
      OnlyHitsStep(room, s, steps[0], hits);
      OnlyHitsOverRun(room, Apply(room, s, steps[0]), steps[1..], hits + HitBy(s, steps[0]));
      assert hits + HitBy(s, steps[0]) + Hits(room, Apply(room, s, steps[0]), steps[1..]) == hits + Hits(room, s, steps);
    } else {
      assert hits + {} == hits;
    }
  }

  /** Only ids whose retry got a hit are ever resolved.  On a target that never loses an event, once the
      workers of a walk that nobody stopped cannot move, all of them are, and all of them are OK. */
  lemma ResolvedAreHits(room: Room, served: set<EventId>, steps: seq<Step>)
    requires ValidRun(room, Init(room, served), steps)
    ensures var s := End(room, Init(room, served), steps);
            && s.resolved <= Hits(room, Init(room, served), steps)
            && (room.start in served && LoyalRun(room, Init(room, served), steps) && Unstopped(steps)
                && !s.finished && OutOfMoves(room, s) ==>
                  s.resolved == Hits(room, Init(room, served), steps) <= s.ok)
  {
    var s0 := Init(room, served);
    var s := End(room, s0, steps);
    OnlyHitsOverRun(room, s0, steps, {});
    SafetyOverRun(room, s0, steps);
    if room.start in served && LoyalRun(room, s0, steps) && Unstopped(steps) && !s.finished && OutOfMoves(room, s) {
      NobodyQuitOverRun(room, s0, steps);
      OutOfMovesIsRest(room, s);
      forall id | id in Hits(room, s0, steps)
        ensures id in s.resolved
      {
        HandledOverRun(room, s0, steps, id);
      }
    }
  }

  // ----- every repair gets a retry worker

  function TaskIds(tasks: seq<Task>): seq<EventId> {
    seq(|tasks|, k requires 0 <= k < |tasks| => tasks[k].id)
  }

  lemma OneMoreWorker(room: Room, s: State, step: Step)
    requires Enabled(room, s, step) && OrderInv(s.repair, s.tried)
    ensures TaskIds(Apply(room, s, step).retries) == TaskIds(s.retries) + RepairedBy(s, step)
  {
    match step
    case ByFetcher(f) =>
    case ByRepair(r) => WorkerForRepair(room, s, r);
    case ByRetry(t) =>
    case Outside(o) =>
  }

  lemma WorkerForRepair(room: Room, s: State, step: RepairStep)
    requires RepairEnabled(room, s, step) && OrderInv(s.repair, s.tried)
    ensures TaskIds(ApplyRepair(room, s, step).retries) == TaskIds(s.retries) + RepairedBy(s, ByRepair(step))
  {
    if step.RepairFinish? {
      assert s.repair.out + s.repair.rest == s.repair.out;
      assert |Reverse(s.repair.hunt.collected)| == |s.repair.hunt.collected|;
    }
  }

  lemma {:induction false} WorkersOverRun(room: Room, s: State, steps: seq<Step>)
    requires ValidRun(room, s, steps) && OrderInv(s.repair, s.tried)
    ensures TaskIds(End(room, s, steps).retries) == TaskIds(s.retries) + Repaired(room, s, steps)
    decreases |steps|
  {
    if steps != [] {
      OrderStep(room, s, steps[0]);
      OneMoreWorker(room, s, steps[0]);
      WorkersOverRun(room, Apply(room, s, steps[0]), steps[1..]);
    }
  }

  /** The retry workers are exactly one for each hunt that collected, and so sent, something. */
  lemma EveryRepairIsRetried(room: Room, served: set<EventId>, steps: seq<Step>)
    requires ValidRun(room, Init(room, served), steps)
    ensures TaskIds(End(room, Init(room, served), steps).retries) == Repaired(room, Init(room, served), steps)
  {
    WorkersOverRun(room, Init(room, served), steps);
    assert TaskIds([]) + Repaired(room, Init(room, served), steps) == Repaired(room, Init(room, served), steps);
  }

  // ----- how often a retry worker asks

  /** How often worker `k` may have missed, and whether it was told the event is there. */
  ghost predicate AskedInTurn(s: State, k: nat, misses: nat, hit: bool) {
    if k >= |s.retries| || s.retries[k].stage == Created then misses == 0 && !hit
    else
      match s.retries[k].stage
      case Waiting(attempts) => misses == attempts < 10 && !hit
      case RetryDone => if hit then misses < 10 else misses == 10
      case Abandoned => misses < 10 && !hit
      case Created => false
  }

  ghost predicate WasHit(steps: seq<Step>, k: nat) {
    ByRetry(RetryCheck(k, true)) in steps
  }

  lemma AskedStep(room: Room, s: State, step: Step, k: nat, misses: nat, hit: bool)
    requires Enabled(room, s, step) && AskedInTurn(s, k, misses, hit)
    ensures AskedInTurn(Apply(room, s, step), k,
                        misses + (if step == ByRetry(RetryCheck(k, false)) then 1 else 0),
                        hit || step == ByRetry(RetryCheck(k, true)))
  {
    match step
    case ByFetcher(f) =>
    case ByRepair(r) => AskedRepair(room, s, r, k, misses, hit);
    case ByRetry(t) =>
    case Outside(o) =>
  }

  lemma AskedRepair(room: Room, s: State, step: RepairStep, k: nat, misses: nat, hit: bool)
    requires RepairEnabled(room, s, step) && AskedInTurn(s, k, misses, hit)
    ensures AskedInTurn(ApplyRepair(room, s, step), k, misses, hit)
  {
  }

  lemma {:induction false} AskedOverRun(room: Room, s: State, steps: seq<Step>, k: nat, misses: nat, hit: bool)
    requires ValidRun(room, s, steps) && AskedInTurn(s, k, misses, hit)
    ensures AskedInTurn(End(room, s, steps), k, misses + Misses(steps, k), hit || WasHit(steps, k))
    decreases |steps|
  {
    if steps != [] {
      AskedStep(room, s, steps[0], k, misses, hit);
      AskedOverRun(room, Apply(room, s, steps[0]), steps[1..], k,
                   misses + (if steps[0] == ByRetry(RetryCheck(k, false)) then 1 else 0),
                   hit || steps[0] == ByRetry(RetryCheck(k, true)));
      assert WasHit(steps, k) <==> steps[0] == ByRetry(RetryCheck(k, true)) || WasHit(steps[1..], k);
    }
  }

  /** A retry worker asks until a hit or ten misses, and no more: one that is done was hit, or missed ten
      times; without a hit and a stop, one at rest missed exactly ten times. */
  lemma TenMissesGiveUp(room: Room, served: set<EventId>, steps: seq<Step>, k: nat)
    requires ValidRun(room, Init(room, served), steps)
    ensures var s := End(room, Init(room, served), steps);
            && Misses(steps, k) <= 10
            && (k < |s.retries| && s.retries[k].stage == RetryDone ==> (WasHit(steps, k) <==> Misses(steps, k) < 10))
            && (k < |s.retries| && Unstopped(steps) && !s.finished && OutOfMoves(room, s) ==>
                  s.retries[k].stage == RetryDone)
  {
    AskedOverRun(room, Init(room, served), steps, k, 0, false);
    NobodyStoppedIsDone(room, served, steps, k);
  }

  lemma NobodyStoppedIsDone(room: Room, served: set<EventId>, steps: seq<Step>, k: nat)
    requires ValidRun(room, Init(room, served), steps)
    ensures var s := End(room, Init(room, served), steps);
            k < |s.retries| && Unstopped(steps) && !s.finished && OutOfMoves(room, s) ==>
              s.retries[k].stage == RetryDone
  {
    var s := End(room, Init(room, served), steps);
    if Unstopped(steps) && !s.finished && OutOfMoves(room, s) {
      NobodyQuitOverRun(room, Init(room, served), steps);
      OutOfMovesIsRest(room, s);
    }
  }
}
