/** What holds at every suspension point of the room walk, in every interleaving. */
module RoomWalkSafety {
  import opened Collections
  import opened RoomWalk

  // ----- the id sets

  /** The ids a fetcher round may still find. */
  function Pending(f: Fetcher): set<EventId> {
    match f
    case Fetching(_, ids, _) => ids
    case Walking(round) => round.todo
    case AwaitPrev(round, _, _) => round.todo
    case AwaitAuth(round, _, _, _, _) => round.todo
    case _ => {}
  }

  predicate OnRetry(f: Fetcher) {
    match f
    case Fetching(retry, _, _) => retry
    case Walking(round) => round.retry
    case AwaitPrev(round, _, _) => round.retry
    case AwaitAuth(round, _, _, _, _) => round.retry
    case _ => false
  }

  predicate HasHunt(r: Repair) {
    !r.RepairIdle? && !r.RepairEnded?
  }

  /** Resolved ids are both found and once missing; everything handed between the workers for repair
      or retry is an id that was once missing. */
  ghost predicate SetsInv(s: State) {
    && s.resolved <= s.ok
    && s.resolved <= s.error
    && Elems(s.errorQ) <= s.error
    && (forall i :: 0 <= i < |s.fetchQ| && s.fetchQ[i].retry ==> s.fetchQ[i].ids <= s.error)
    && (OnRetry(s.fetcher) ==> Pending(s.fetcher) <= s.error)
    && (HasHunt(s.repair) ==> s.repair.hunt.root in s.error)
    && (forall k :: 0 <= k < |s.retries| ==> s.retries[k].id in s.error)
  }

  lemma SetsInvFetch(room: Room, s: State, step: FetchStep)
    requires FetchEnabled(room, s, step) && SetsInv(s)
    ensures SetsInv(ApplyFetch(room, s, step))
  {
    if step.FetchAuth? {
      FreshElems(s.fetcher.prevBad + step.bad, s.error);
      ElemsOfConcat(s.errorQ, Fresh(s.fetcher.prevBad + step.bad, s.error));
    }
  }

  lemma SetsInvRepair(room: Room, s: State, step: RepairStep)
    requires RepairEnabled(room, s, step) && SetsInv(s)
    ensures SetsInv(ApplyRepair(room, s, step))
  {
  }

  lemma SetsInvRetry(s: State, step: RetryStep)
    requires RetryEnabled(s, step) && SetsInv(s)
    ensures SetsInv(ApplyRetry(s, step))
  {
  }

  lemma SetsInvStep(room: Room, s: State, step: Step)
    requires Enabled(room, s, step) && SetsInv(s)
    ensures SetsInv(Apply(room, s, step))
  {
    match step
    case ByFetcher(f) => SetsInvFetch(room, s, f);
    case ByRepair(r) => SetsInvRepair(room, s, r);
    case ByRetry(t) => SetsInvRetry(s, t);
    case Outside(o) =>
  }

  // ----- the histories

  ghost predicate PairwiseDisjoint(rounds: seq<set<EventId>>) {
    forall i, j :: 0 <= i < j < |rounds| ==> rounds[i] !! rounds[j]
  }

  ghost predicate HistoryInv(s: State) {
    && NoDup(s.log.errors) && Elems(s.log.errors) == s.error
    && NoDup(s.log.searches) && Elems(s.log.searches) == s.tried
    && PairwiseDisjoint(s.log.rounds)
    && (forall i :: 0 <= i < |s.log.rounds| ==> s.log.rounds[i] <= s.attempted)
  }

  lemma HistoryInvFetch(room: Room, s: State, step: FetchStep)
    requires FetchEnabled(room, s, step) && HistoryInv(s)
    ensures HistoryInv(ApplyFetch(room, s, step))
  {
    if step.FetchAuth? {
      var order := s.fetcher.prevBad + step.bad;
      FreshElems(order, s.error);
      NoDupConcat(s.log.errors, Fresh(order, s.error));
    }
  }

  lemma HistoryInvRepair(room: Room, s: State, step: RepairStep)
    requires RepairEnabled(room, s, step) && HistoryInv(s)
    ensures HistoryInv(ApplyRepair(room, s, step))
  {
    if step.RepairPop? && s.repair.hunt.queue != [] {
      var popped := s.repair.hunt.queue[0];
      if popped !in s.tried {
        assert Elems([popped]) == {popped};
        NoDupConcat(s.log.searches, [popped]);
      }
    }
  }

  lemma HistoryInvRetry(s: State, step: RetryStep)
    requires RetryEnabled(s, step) && HistoryInv(s)
    ensures HistoryInv(ApplyRetry(s, step))
  {
  }

  lemma HistoryInvStep(room: Room, s: State, step: Step)
    requires Enabled(room, s, step) && HistoryInv(s)
    ensures HistoryInv(Apply(room, s, step))
  {
    match step
    case ByFetcher(f) => HistoryInvFetch(room, s, f);
    case ByRepair(r) => HistoryInvRepair(room, s, r);
    case ByRetry(t) => HistoryInvRetry(s, t);
    case Outside(o) =>
  }

  // ----- the working flags

  predicate FetcherBusy(f: Fetcher) {
    !f.FetchIdle? && !f.FetchEnded?
  }

  predicate StageBusy(stage: Retry) {
    stage.Waiting? || stage.Abandoned?
  }

  /** A retry worker has no flag before it first runs, and one that saw the stop button leaves its
      flag up. */
  ghost predicate RetryFlags(retries: seq<Task>, working: map<Worker, bool>) {
    forall k: nat ::
      && (RetryWorker(k) in working <==> k < |retries| && retries[k].stage != Created)
      && (RetryWorker(k) in working ==> working[RetryWorker(k)] == StageBusy(retries[k].stage))
  }

  /** The fetcher's and the repair worker's flags are up exactly while they hold an item. */
  ghost predicate FlagsInv(s: State) {
    && FetchWorker in s.working && s.working[FetchWorker] == FetcherBusy(s.fetcher)
    && RepairWorker in s.working && s.working[RepairWorker] == HasHunt(s.repair)
    && RetryFlags(s.retries, s.working)
  }

  lemma FlagsInvFetch(room: Room, s: State, step: FetchStep)
    requires FetchEnabled(room, s, step) && FlagsInv(s)
    ensures FlagsInv(ApplyFetch(room, s, step))
  {
  }

  lemma FlagsInvRepair(room: Room, s: State, step: RepairStep)
    requires RepairEnabled(room, s, step) && FlagsInv(s)
    ensures FlagsInv(ApplyRepair(room, s, step))
  {
  }

  lemma FlagsInvRetry(s: State, step: RetryStep)
    requires RetryEnabled(s, step) && FlagsInv(s)
    ensures FlagsInv(ApplyRetry(s, step))
  {
  }

  lemma FlagsInvStep(room: Room, s: State, step: Step)
    requires Enabled(room, s, step) && FlagsInv(s)
    ensures FlagsInv(Apply(room, s, step))
  {
    match step
    case ByFetcher(f) => FlagsInvFetch(room, s, f);
    case ByRepair(r) => FlagsInvRepair(room, s, r);
    case ByRetry(t) => FlagsInvRetry(s, t);
    case Outside(o) =>
  }

  // ----- whole runs

  ghost predicate SafetyInv(s: State) {
    SetsInv(s) && HistoryInv(s) && FlagsInv(s)
  }

  lemma {:induction false} SafetyOverRun(room: Room, s: State, steps: seq<Step>)
    requires ValidRun(room, s, steps) && SafetyInv(s)
    ensures SafetyInv(End(room, s, steps))
    decreases |steps|
  {
    if steps != [] {
      SetsInvStep(room, s, steps[0]);
      HistoryInvStep(room, s, steps[0]);
      FlagsInvStep(room, s, steps[0]);
      SafetyOverRun(room, Apply(room, s, steps[0]), steps[1..]);
    }
  }

  /** In every run: resolved ids are both in the OK and in the error set, no id enters the error queue
      twice, no id is fetched by two rounds that are not retries, and no id is searched for twice. */
  lemma WalkSets(room: Room, served: set<EventId>, steps: seq<Step>)
    requires ValidRun(room, Init(room, served), steps)
    ensures var s := End(room, Init(room, served), steps);
            && s.resolved <= s.ok * s.error
            && NoDup(s.log.errors) && Elems(s.log.errors) == s.error
            && PairwiseDisjoint(s.log.rounds)
            && NoDup(s.log.searches) && Elems(s.log.searches) == s.tried
  {
    SafetyOverRun(room, Init(room, served), steps);
  }

  /** When the status loop gives up for want of work, both queues are empty, the fetcher and the repair
      worker hold nothing, and every retry worker that ever ran is done. */
  lemma IdleIsSound(room: Room, served: set<EventId>, steps: seq<Step>)
    requires ValidRun(room, Init(room, served), steps)
    ensures var s := End(room, Init(room, served), steps);
            !s.finished && s.control != Stopped && DoTick(s).finished ==>
              && s.fetchQ == [] && s.errorQ == []
              && !FetcherBusy(s.fetcher) && !HasHunt(s.repair)
              && forall k :: 0 <= k < |s.retries| ==> s.retries[k].stage in {Created, RetryDone}
  {
    var s := End(room, Init(room, served), steps);
    SafetyOverRun(room, Init(room, served), steps);
    if !s.finished && s.control != Stopped && DoTick(s).finished {
      assert AllIdle(s.working);
      forall k: nat | k < |s.retries|
        ensures s.retries[k].stage in {Created, RetryDone}
      {
        assert RetryWorker(k) in s.working ==> !s.working[RetryWorker(k)];
      }
    }
  }
}
