/** How much work the workers of a room walk can do at most.  How the walk itself ends is in RoomWalkEnding. */
module RoomWalkTermination {
  import opened Collections
  import opened RoomWalk
  import opened RoomWalkSafety

  // ----- runs over a finite universe of event ids

  /** The universe holds the start event and is closed under the target's ancestor lists. */
  ghost predicate Universe(room: Room, all: set<EventId>) {
    && room.start in all
    && forall id :: id in all ==> Parents(room.event(id)) <= all
  }

  /** A donor may answer with any event, as long as its ancestors are in the universe. */
  ghost predicate StepWithin(step: Step, all: set<EventId>) {
    step.ByRepair? && step.r.RepairFound? ==>
      forall e :: Some(e) in step.r.answers ==> Parents(e) <= all
  }

  ghost predicate RunWithin(steps: seq<Step>, all: set<EventId>) {
    forall i :: 0 <= i < |steps| ==> StepWithin(steps[i], all)
  }

  ghost predicate FetcherWithin(f: Fetcher, all: set<EventId>) {
    match f
    case FetchIdle => true
    case FetchEnded => true
    case Fetching(retry, ids, _) => ids <= all && (retry ==> |ids| == 1)
    case Walking(round) => round.todo <= all && round.next <= all
    case AwaitPrev(round, cur, _) => round.todo <= all && round.next <= all && cur in all
    case AwaitAuth(round, cur, good, bad, _) =>
      round.todo <= all && round.next <= all && cur in all && good <= all && Elems(bad) <= all
  }

  ghost predicate HuntWithin(h: Hunt, all: set<EventId>) {
    h.root in all && Elems(h.queue) <= all && h.searching <= all
  }

  ghost predicate RepairWithin(room: Room, r: Repair, all: set<EventId>) {
    && (HasHunt(r) ==> HuntWithin(r.hunt, all))
    && match r
       case Scanning(_, _, hits) => |hits| <= room.hosts && forall e :: e in hits ==> Parents(e) <= all
       case ScanPrev(_, _, hits, hit) =>
         |hits| < room.hosts && Parents(hit) <= all && forall e :: e in hits ==> Parents(e) <= all
       case ScanAuth(_, _, hits, hit, bad) =>
         && |hits| < room.hosts && Parents(hit) <= all && Elems(bad) <= all
         && forall e :: e in hits ==> Parents(e) <= all
       case _ => true
  }

  ghost predicate ItemsWithin(items: seq<Item>, all: set<EventId>) {
    forall i :: 0 <= i < |items| ==> items[i].ids <= all && (items[i].retry ==> |items[i].ids| == 1)
  }

  ghost predicate TasksWithin(tasks: seq<Task>, all: set<EventId>) {
    forall k :: 0 <= k < |tasks| ==>
      tasks[k].id in all && (tasks[k].stage.Waiting? ==> tasks[k].stage.attempts < RETRY_LIMIT)
  }

  ghost predicate Within(room: Room, s: State, all: set<EventId>) {
    && s.attempted <= all && s.error <= all && s.tried <= all
    && Elems(s.errorQ) <= all
    && ItemsWithin(s.fetchQ, all)
    && TasksWithin(s.retries, all)
    && FetcherWithin(s.fetcher, all)
    && RepairWithin(room, s.repair, all)
  }

  lemma WithinFetch(room: Room, s: State, step: FetchStep, all: set<EventId>)
    requires Universe(room, all) && FetchEnabled(room, s, step) && Within(room, s, all)
    ensures Within(room, ApplyFetch(room, s, step), all)
  {
    match step
    case FetchAuth(bad) =>
      var order := s.fetcher.prevBad + bad;
      assert Parents(room.event(s.fetcher.cur)) <= all;
      ElemsOfConcat(s.fetcher.prevBad, bad);
      FreshElems(order, s.error);
      ElemsOfConcat(s.errorQ, Fresh(order, s.error));
    case FetchPrev(bad) =>
      assert Parents(room.event(s.fetcher.cur)) <= all;
    case _ =>
  }

  lemma WithinRepair(room: Room, s: State, step: RepairStep, all: set<EventId>)
    requires RepairEnabled(room, s, step) && Within(room, s, all) && StepWithin(ByRepair(step), all)
    ensures Within(room, ApplyRepair(room, s, step), all)
  {
    match step
    case RepairFound(answers) =>
      UsableAreAnswers(answers);
    case RepairAuth(bad) =>
      assert HasHunt(s.repair);
      HuntGrowsWithin(s.repair.hunt, s.repair.prevBad, bad, all);
    case _ =>
  }

  lemma HuntGrowsWithin(h: Hunt, prevBad: seq<EventId>, bad: seq<EventId>, all: set<EventId>)
    requires HuntWithin(h, all) && Elems(prevBad) <= all && Elems(bad) <= all
    ensures var order := prevBad + bad;
            HuntWithin(h.(queue := h.queue + Fresh(order, h.searching), searching := h.searching + Elems(order)), all)
  {
    var order := prevBad + bad;
    ElemsOfConcat(prevBad, bad);
    FreshElems(order, h.searching);
    ElemsOfConcat(h.queue, Fresh(order, h.searching));
  }

  lemma WithinStep(room: Room, s: State, step: Step, all: set<EventId>)
    requires Universe(room, all) && Enabled(room, s, step) && Within(room, s, all) && StepWithin(step, all)
    ensures Within(room, Apply(room, s, step), all)
  {
    match step
    case ByFetcher(f) => WithinFetch(room, s, f, all);
    case ByRepair(r) => WithinRepair(room, s, r, all);
    case ByRetry(t) =>
    case Outside(o) =>
  }

  // ----- how many worker steps are left

  function Sum(weights: seq<nat>): nat {
    if weights == [] then 0 else weights[0] + Sum(weights[1..])
  }

  lemma {:induction false} SumConcat(a: seq<nat>, b: seq<nat>)
    ensures Sum(a + b) == Sum(a) + Sum(b)
  {
    if a == [] {
      assert a + b == b;
    } else {
      assert (a + b)[1..] == a[1..] + b;
      SumConcat(a[1..], b);
    }
  }

  lemma {:induction false} SumUpdate(a: seq<nat>, k: nat, w: nat)
    requires k < |a|
    ensures Sum(a[k := w]) == Sum(a) - a[k] + w
  {
    if k == 0 {
      assert a[0 := w][1..] == a[1..];
    } else {
      assert a[k := w][1..] == a[1..][k - 1 := w];
      SumUpdate(a[1..], k - 1, w);
    }
  }

  /** Weights per queued batch and per retry worker. */
  function ItemSteps(items: seq<Item>): seq<nat> {
    seq(|items|, i requires 0 <= i < |items| => if items[i].retry then 9 else 3)
  }

  function TaskSteps(tasks: seq<Task>): seq<nat> {
    seq(|tasks|, k requires 0 <= k < |tasks| => StageSteps(tasks[k].stage))
  }

  function StageSteps(stage: Retry): nat {
    match stage
    case Created => 20
    case Waiting(attempts) => if attempts < RETRY_LIMIT then RETRY_LIMIT - attempts + 9 else 9
    case RetryDone => 0
    case Abandoned => 0
  }

  function RoundSteps(round: Round): nat {
    3 * |round.todo| + if round.todo == {} && round.next == {} then 1 else 4
  }

  function FetcherSteps(f: Fetcher): nat {
    match f
    case FetchIdle => 1
    case FetchEnded => 0
    case Fetching(_, ids, _) => 3 * |ids| + 6
    case Walking(round) => RoundSteps(round) + 1
    case AwaitPrev(round, _, _) => 3 * |round.todo| + 7
    case AwaitAuth(round, _, _, _, _) => 3 * |round.todo| + 6
  }

  function HuntSteps(h: Hunt, n: nat): int {
    |h.queue| + (n - |h.searching|) + |h.collected| + 22
  }

  function RepairSteps(r: Repair, n: nat, hosts: nat): int {
    match r
    case RepairIdle => 1
    case RepairEnded => 0
    case Hunting(h) => HuntSteps(h, n) + 1
    case Finding(h, _) => HuntSteps(h, n) + 3 + 4 * hosts
    case Scanning(h, _, hits) => HuntSteps(h, n) + 2 + 4 * |hits|
    case ScanPrev(h, _, hits, _) => HuntSteps(h, n) + 4 + 4 * |hits|
    case ScanAuth(h, _, hits, _, _) => HuntSteps(h, n) + 3 + 4 * |hits|
    case Sending(h, rest, _) => |rest| + 22
  }

  /** What an id not yet in the error set, and an id not yet searched for, may still cost. */
  function ErrorCost(n: nat): nat { n + 24 }

  function SearchCost(hosts: nat): nat { 2 + 4 * hosts }

  function Times(cost: nat, x: int): nat {
    if x <= 0 then 0 else cost + Times(cost, x - 1)
  }

  function StepsLeft(room: Room, s: State, n: nat): int {
    Sum(ItemSteps(s.fetchQ)) + 6 * (n - |s.attempted|) + FetcherSteps(s.fetcher)
    + Times(ErrorCost(n), |s.errorQ| + n - |s.error|) + Times(SearchCost(room.hosts), n - |s.tried|)
    + RepairSteps(s.repair, n, room.hosts) + Sum(TaskSteps(s.retries))
  }

  lemma ItemStepsSplit(items: seq<Item>)
    requires items != []
    ensures Sum(ItemSteps(items)) == (if items[0].retry then 9 else 3) + Sum(ItemSteps(items[1..]))
  {
    assert ItemSteps(items)[1..] == ItemSteps(items[1..]);
  }

  lemma ItemStepsSnoc(items: seq<Item>, item: Item)
    ensures Sum(ItemSteps(items + [item])) == Sum(ItemSteps(items)) + if item.retry then 9 else 3
  {
    assert ItemSteps(items + [item]) == ItemSteps(items) + [if item.retry then 9 else 3];
    SumConcat(ItemSteps(items), [if item.retry then 9 else 3]);
  }

  lemma TaskStepsSnoc(tasks: seq<Task>, task: Task)
    ensures Sum(TaskSteps(tasks + [task])) == Sum(TaskSteps(tasks)) + StageSteps(task.stage)
  {
    assert TaskSteps(tasks + [task]) == TaskSteps(tasks) + [StageSteps(task.stage)];
    SumConcat(TaskSteps(tasks), [StageSteps(task.stage)]);
  }

  lemma TaskStepsUpdate(tasks: seq<Task>, k: nat, task: Task)
    requires k < |tasks|
    ensures Sum(TaskSteps(tasks[k := task])) ==
            Sum(TaskSteps(tasks)) - StageSteps(tasks[k].stage) + StageSteps(task.stage)
  {
    assert TaskSteps(tasks[k := task]) == TaskSteps(tasks)[k := StageSteps(task.stage)];
    SumUpdate(TaskSteps(tasks), k, StageSteps(task.stage));
  }

  lemma {:induction false} TimesIsProduct(cost: nat, x: nat)
    ensures Times(cost, x) == cost * x
  {
    if x > 0 {
      TimesIsProduct(cost, x - 1);
    }
  }

  lemma UnionSize<T>(a: set<T>, b: set<T>)
    requires a !! b
    ensures |a + b| == |a| + |b|
  {
  }

  lemma LeftFetchGet(room: Room, s: State, n: nat)
    requires s.fetcher.FetchIdle? && s.fetchQ != []
    requires s.fetchQ[0].retry ==> |s.fetchQ[0].ids| == 1
    ensures StepsLeft(room, DoFetchGet(s), n) < StepsLeft(room, s, n)
  {
    var t := DoFetchGet(s);
    assert t.repair == s.repair && t.retries == s.retries && t.errorQ == s.errorQ;
    assert t.error == s.error && t.tried == s.tried;
    GetCosts(s.fetchQ, s.attempted, s.served);
  }

  /** What a dequeued batch costs the fetcher is paid by the batch and by the ids it newly attempts. */
  lemma GetCosts(items: seq<Item>, attempted: set<EventId>, served: set<EventId>)
    requires items != [] && (items[0].retry ==> |items[0].ids| == 1)
    ensures var item, ids := items[0], Unseen(items[0], attempted);
            var f := if ids == {} then Walking(Round(item.retry, {}, {}, {})) else Fetching(item.retry, ids, served);
            Sum(ItemSteps(items[1..])) + FetcherSteps(f) <
            Sum(ItemSteps(items)) + 6 * (|attempted + ids| - |attempted|) + FetcherSteps(FetchIdle)
  {
    ItemStepsSplit(items);
    AttemptedGrows(items[0], attempted);
  }

  lemma AttemptedGrows(item: Item, attempted: set<EventId>)
    ensures |attempted + Unseen(item, attempted)| >= |attempted| + if item.retry then 0 else |Unseen(item, attempted)|
  {
    var ids := Unseen(item, attempted);
    if item.retry {
      SubsetIsNoLarger(attempted, attempted + ids);
    } else {
      UnionSize(attempted, ids);
    }
  }

  lemma LeftFetchAuth(room: Room, s: State, bad: seq<EventId>, n: nat)
    requires FetchEnabled(room, s, FetchAuth(bad))
    ensures StepsLeft(room, DoFetchAuth(room, s, bad), n) < StepsLeft(room, s, n)
  {
    FreshSize(s.fetcher.prevBad + bad, s.error);
  }

  lemma LeftFetchPick(room: Room, s: State, cur: EventId, n: nat)
    requires FetchEnabled(room, s, FetchPick(cur))
    ensures StepsLeft(room, DoFetchPick(s, cur), n) < StepsLeft(room, s, n)
  {
    var todo := s.fetcher.round.todo;
    UnionSize(todo - {cur}, {cur});
    assert (todo - {cur}) + {cur} == todo;
  }

  lemma LeftFetch(room: Room, s: State, step: FetchStep, n: nat)
    requires FetchEnabled(room, s, step)
    requires step.FetchGet? && s.fetchQ[0].retry ==> |s.fetchQ[0].ids| == 1
    ensures StepsLeft(room, ApplyFetch(room, s, step), n) < StepsLeft(room, s, n)
  {
    match step
    case FetchGet => LeftFetchGet(room, s, n);
    case FetchPick(cur) => LeftFetchPick(room, s, cur, n);
    case FetchAuth(bad) => LeftFetchAuth(room, s, bad, n);
    case FetchFinish => ItemStepsSnoc(s.fetchQ, Item(false, s.fetcher.round.next));
    case _ =>
  }

  lemma LeftRepairPop(room: Room, s: State, all: set<EventId>)
    requires s.repair.Hunting? && s.tried <= all && HuntWithin(s.repair.hunt, all)
    ensures StepsLeft(room, DoRepairPop(s), |all|) < StepsLeft(room, s, |all|)
  {
    var h := s.repair.hunt;
    SubsetIsNoLarger(h.searching, all);
    if h.queue != [] && s.control != Stopped && h.queue[0] !in s.tried {
      UnionSize(s.tried, {h.queue[0]});
      SubsetIsNoLarger(s.tried + {h.queue[0]}, all);
    }
  }

  lemma LeftRepairGet(room: Room, s: State, all: set<EventId>)
    requires s.repair == RepairIdle && s.errorQ != [] && s.error <= all
    ensures StepsLeft(room, DoRepairGet(s), |all|) < StepsLeft(room, s, |all|)
  {
    SubsetIsNoLarger(s.error, all);
  }

  lemma LeftRepairFound(room: Room, s: State, answers: seq<Option<Event>>, n: nat)
    requires RepairEnabled(room, s, RepairFound(answers))
    ensures StepsLeft(room, ApplyRepair(room, s, RepairFound(answers)), n) < StepsLeft(room, s, n)
  {
    UsableAreAnswers(answers);
  }

  lemma LeftRepairAuth(room: Room, s: State, bad: seq<EventId>, n: nat)
    requires RepairEnabled(room, s, RepairAuth(bad))
    ensures StepsLeft(room, DoRepairAuth(s, bad), n) < StepsLeft(room, s, n)
  {
    FreshSize(s.repair.prevBad + bad, s.repair.hunt.searching);
  }

  lemma LeftRepair(room: Room, s: State, step: RepairStep, all: set<EventId>)
    requires RepairEnabled(room, s, step) && s.tried <= all && s.error <= all
    requires HasHunt(s.repair) ==> HuntWithin(s.repair.hunt, all)
    ensures StepsLeft(room, ApplyRepair(room, s, step), |all|) < StepsLeft(room, s, |all|)
  {
    match step
    case RepairGet => LeftRepairGet(room, s, all);
    case RepairPop => LeftRepairPop(room, s, all);
    case RepairFound(answers) => LeftRepairFound(room, s, answers, |all|);
    case RepairAuth(bad) => LeftRepairAuth(room, s, bad, |all|);
    case RepairFinish => TaskStepsSnoc(s.retries, Task(s.repair.hunt.root, Created));
    case _ =>
  }

  lemma LeftRetry(room: Room, s: State, step: RetryStep, n: nat)
    requires RetryEnabled(s, step)
    requires step.RetryCheck? ==> s.retries[step.k].stage.attempts < RETRY_LIMIT
    ensures StepsLeft(room, ApplyRetry(s, step), n) < StepsLeft(room, s, n)
  {
    match step
    case RetryStart(k) => TaskStepsUpdate(s.retries, k, DoRetryStart(s, k).retries[k]);
    case RetryCheck(k, hit) =>
      TaskStepsUpdate(s.retries, k, DoRetryCheck(s, k, hit).retries[k]);
      ItemStepsSnoc(s.fetchQ, Item(true, {s.retries[k].id}));
  }

  lemma LeftOutside(room: Room, s: State, step: OutsideStep, n: nat)
    ensures StepsLeft(room, ApplyOutside(s, step), n) == StepsLeft(room, s, n)
  {
    var t := ApplyOutside(s, step);
    assert t.fetchQ == s.fetchQ && t.errorQ == s.errorQ && t.retries == s.retries;
    assert t.fetcher == s.fetcher && t.repair == s.repair;
  }

  /** Every worker step lowers the measure and no other step raises it. */
  lemma StepsLeftFalls(room: Room, s: State, step: Step, all: set<EventId>)
    requires Universe(room, all) && Within(room, s, all) && Enabled(room, s, step)
    ensures StepsLeft(room, Apply(room, s, step), |all|) <= StepsLeft(room, s, |all|) - (if step.Outside? then 0 else 1)
  {
    match step
    case ByFetcher(f) => LeftFetch(room, s, f, |all|);
    case ByRepair(r) => LeftRepair(room, s, r, all);
    case ByRetry(t) => LeftRetry(room, s, t, |all|);
    case Outside(o) => LeftOutside(room, s, o, |all|);
  }

  lemma StepsLeftIsNatural(room: Room, s: State, all: set<EventId>)
    requires Within(room, s, all)
    ensures StepsLeft(room, s, |all|) >= 0
  {
    SubsetIsNoLarger(s.attempted, all);
    SubsetIsNoLarger(s.error, all);
    SubsetIsNoLarger(s.tried, all);
    if HasHunt(s.repair) {
      SubsetIsNoLarger(s.repair.hunt.searching, all);
    }
  }

  lemma {:induction false} StepsOverRun(room: Room, s: State, steps: seq<Step>, all: set<EventId>)
    requires Universe(room, all) && Within(room, s, all)
    requires ValidRun(room, s, steps) && RunWithin(steps, all)
    ensures WorkerSteps(steps) <= StepsLeft(room, s, |all|)
    ensures Within(room, End(room, s, steps), all)
    decreases |steps|
  {
    StepsLeftIsNatural(room, s, all);
    if steps != [] {
      WithinStep(room, s, steps[0], all);
      StepsLeftFalls(room, s, steps[0], all);
      StepsOverRun(room, Apply(room, s, steps[0]), steps[1..], all);
    }
  }

  lemma Budget(n: nat, hosts: nat)
    ensures 6 * n + Times(ErrorCost(n), n) + Times(SearchCost(hosts), n) == n * (n + 32 + 4 * hosts)
  {
    TimesIsProduct(ErrorCost(n), n);
    TimesIsProduct(SearchCost(hosts), n);
    AddUp(n, n + 24, 2 + 4 * hosts);
  }

  lemma AddUp(n: nat, a: nat, b: nat)
    ensures 6 * n + a * n + b * n == n * (6 + a + b)
  {
  }

  /** The workers come to rest: whatever the interleaving and whatever the servers answer, the workers together
      take at most `5 + n * (n + 32 + 4 * hosts)` steps over a universe of `n` event ids. */
  lemma WalkTerminates(room: Room, served: set<EventId>, steps: seq<Step>, all: set<EventId>)
    requires Universe(room, all) && RunWithin(steps, all)
    requires ValidRun(room, Init(room, served), steps)
    ensures WorkerSteps(steps) <= 5 + |all| * (|all| + 32 + 4 * room.hosts)
  {
    StepsOverRun(room, Init(room, served), steps, all);
    StepsAtStart(room, served, |all|);
  }

  lemma StepsAtStart(room: Room, served: set<EventId>, n: nat)
    ensures StepsLeft(room, Init(room, served), n) == 5 + n * (n + 32 + 4 * room.hosts)
  {
    var s := Init(room, served);
    ItemStepsSplit(s.fetchQ);
    assert ItemSteps(s.fetchQ[1..]) == [];
    assert TaskSteps(s.retries) == [];
    Budget(n, room.hosts);
  }

  // ----- how often the queues are written

  /** Batches already counted in the log plus those that may still be put on the fetch queue: each id
      not yet attempted may cause one, each id not yet missing a retry and what follows it. */
  function Follows(f: Fetcher): nat {
    match f
    case FetchIdle => 0
    case FetchEnded => 0
    case Walking(round) => if round.todo == {} && round.next == {} then 0 else 1
    case _ => 1
  }

  function RetryItem(item: Item): nat {
    if item.retry then 1 else 0
  }

  function TaskPuts(stage: Retry): nat {
    if stage == Created || stage.Waiting? then 2 else 0
  }

  function ItemPuts(items: seq<Item>): nat {
    if items == [] then 0 else RetryItem(items[0]) + ItemPuts(items[1..])
  }

  function TasksPuts(tasks: seq<Task>): nat {
    if tasks == [] then 0 else TaskPuts(tasks[0].stage) + TasksPuts(tasks[1..])
  }

  function Puts(s: State, n: nat): int {
    s.log.fetchPuts + (n - |s.attempted|) + 2 * (|s.errorQ| + n - |s.error|)
    + (if HasHunt(s.repair) then 2 else 0) + TasksPuts(s.retries) + ItemPuts(s.fetchQ) + Follows(s.fetcher)
  }

  lemma {:induction false} ItemPutsSnoc(items: seq<Item>, item: Item)
    ensures ItemPuts(items + [item]) == ItemPuts(items) + RetryItem(item)
  {
    if items == [] {
      assert [item][1..] == [];
    } else {
      assert (items + [item])[1..] == items[1..] + [item];
      ItemPutsSnoc(items[1..], item);
    }
  }

  lemma {:induction false} TasksPutsSnoc(tasks: seq<Task>, task: Task)
    ensures TasksPuts(tasks + [task]) == TasksPuts(tasks) + TaskPuts(task.stage)
  {
    if tasks == [] {
      assert [task][1..] == [];
    } else {
      assert (tasks + [task])[1..] == tasks[1..] + [task];
      TasksPutsSnoc(tasks[1..], task);
    }
  }

  lemma {:induction false} TasksPutsUpdate(tasks: seq<Task>, k: nat, task: Task)
    requires k < |tasks|
    ensures TasksPuts(tasks[k := task]) == TasksPuts(tasks) - TaskPuts(tasks[k].stage) + TaskPuts(task.stage)
  {
    if k == 0 {
      assert tasks[0 := task][1..] == tasks[1..];
    } else {
      assert tasks[k := task][1..] == tasks[1..][k - 1 := task];
      TasksPutsUpdate(tasks[1..], k - 1, task);
    }
  }

  lemma PutsGet(s: State, n: nat)
    requires s.fetcher == FetchIdle && s.fetchQ != []
    ensures Puts(DoFetchGet(s), n) <= Puts(s, n)
  {
    AttemptedGrows(s.fetchQ[0], s.attempted);
    var t := DoFetchGet(s);
    assert t.repair == s.repair && t.retries == s.retries && t.errorQ == s.errorQ && t.error == s.error;
  }

  lemma PutsFetch(room: Room, s: State, step: FetchStep, n: nat)
    requires FetchEnabled(room, s, step)
    ensures Puts(ApplyFetch(room, s, step), n) <= Puts(s, n)
  {
    match step
    case FetchGet => PutsGet(s, n);
    case FetchAuth(bad) => FreshSize(s.fetcher.prevBad + bad, s.error);
    case FetchFinish => ItemPutsSnoc(s.fetchQ, Item(false, s.fetcher.round.next));
    case _ =>
  }

  lemma PutsRepair(room: Room, s: State, step: RepairStep, n: nat)
    requires RepairEnabled(room, s, step)
    ensures Puts(ApplyRepair(room, s, step), n) <= Puts(s, n)
  {
    match step
    case RepairGet => PutsRepairGet(s, n);
    case RepairFinish => PutsRepairFinish(s, n);
    case _ =>
      var t := ApplyRepair(room, s, step);
      assert t.retries == s.retries && t.errorQ == s.errorQ && (HasHunt(t.repair) ==> HasHunt(s.repair));
  }

  lemma PutsRepairGet(s: State, n: nat)
    requires s.repair == RepairIdle && s.errorQ != []
    ensures Puts(DoRepairGet(s), n) <= Puts(s, n)
  {
  }

  lemma PutsRepairFinish(s: State, n: nat)
    requires s.repair.Sending?
    ensures Puts(DoRepairFinish(s), n) <= Puts(s, n)
  {
    TasksPutsSnoc(s.retries, Task(s.repair.hunt.root, Created));
  }

  lemma PutsRetry(s: State, step: RetryStep, n: nat)
    requires RetryEnabled(s, step)
    ensures Puts(ApplyRetry(s, step), n) <= Puts(s, n)
  {
    match step
    case RetryStart(k) => TasksPutsUpdate(s.retries, k, DoRetryStart(s, k).retries[k]);
    case RetryCheck(k, hit) =>
      TasksPutsUpdate(s.retries, k, DoRetryCheck(s, k, hit).retries[k]);
      ItemPutsSnoc(s.fetchQ, Item(true, {s.retries[k].id}));
  }

  lemma PutsStep(room: Room, s: State, step: Step, n: nat)
    requires Enabled(room, s, step)
    ensures Puts(Apply(room, s, step), n) <= Puts(s, n)
  {
    match step
    case ByFetcher(f) => PutsFetch(room, s, f, n);
    case ByRepair(r) => PutsRepair(room, s, r, n);
    case ByRetry(t) => PutsRetry(s, t, n);
    case Outside(o) =>
  }

  lemma {:induction false} PutsOverRun(room: Room, s: State, steps: seq<Step>, n: nat)
    requires ValidRun(room, s, steps)
    ensures Puts(End(room, s, steps), n) <= Puts(s, n)
    decreases |steps|
  {
    if steps != [] {
      PutsStep(room, s, steps[0], n);
      PutsOverRun(room, Apply(room, s, steps[0]), steps[1..], n);
    }
  }

  lemma PutsCovers(s: State, all: set<EventId>)
    requires s.attempted <= all && s.error <= all
    ensures s.log.fetchPuts <= Puts(s, |all|)
  {
    SubsetIsNoLarger(s.attempted, all);
    SubsetIsNoLarger(s.error, all);
  }

  /** Over a universe of `n` ids at most `1 + 3n` batches are ever put on the fetch queue and at most
      `n` ids on the error queue. */
  lemma QueueWrites(room: Room, served: set<EventId>, steps: seq<Step>, all: set<EventId>)
    requires Universe(room, all) && RunWithin(steps, all)
    requires ValidRun(room, Init(room, served), steps)
    ensures End(room, Init(room, served), steps).log.fetchPuts <= 1 + 3 * |all|
    ensures |End(room, Init(room, served), steps).log.errors| <= |all|
  {
    var s := Init(room, served);
    var e := End(room, s, steps);
    StepsOverRun(room, s, steps, all);
    SafetyOverRun(room, s, steps);
    NoDupLength(e.log.errors);
    PutsOverRun(room, s, steps, |all|);
    PutsCovers(e, all);
    SubsetIsNoLarger(e.error, all);
    assert s.fetchQ[1..] == [] && ItemPuts(s.fetchQ) == 0;
  }
}
