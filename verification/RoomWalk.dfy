/**
 * The room-walk repair protocol as a state machine.
 *
 * One fetcher walks the event graph backwards on the target server, one repair worker hunts missing
 * events on donor servers and sends them to the target, and one-shot retry workers hand repaired ids
 * back to the fetcher.  A step is the code between two suspension points of one coroutine, or a finer
 * piece of it, so every interleaving of the coroutines is a sequence of steps.  Everything the network
 * decides is an argument of the step.
 */
module RoomWalk {
  import opened Collections

  type EventId = string

  datatype Verdict = Success | Fail | Unknown

  /** `verified` is the per-server outcome of the signature check. */
  datatype Event = Event(prev: seq<EventId>, auth: seq<EventId>, verified: map<string, Verdict>)

  function Parents(e: Event): set<EventId> {
    Elems(e.prev) + Elems(e.auth)
  }

  ghost predicate Names(e: Event, id: EventId) {
    id in Parents(e)
  }

  /** What does not change during a walk: where it starts, what an id denotes on the target server,
      and how many healthy donor servers there are. */
  datatype Room = Room(start: EventId, event: EventId -> Event, hosts: nat)

  datatype Item = Item(retry: bool, ids: set<EventId>)

  /** A batch the fetcher is working through: what was found, what is left, what to queue next. */
  datatype Round = Round(retry: bool, found: set<EventId>, todo: set<EventId>, next: set<EventId>)

  /** The fetcher's suspension points.  `floor` is what the target could serve when the call was made. */
  datatype Fetcher =
    | FetchIdle
    | FetchEnded
    | Fetching(retry: bool, ids: set<EventId>, floor: set<EventId>)
    | Walking(round: Round)
    | AwaitPrev(round: Round, cur: EventId, floor: set<EventId>)
    | AwaitAuth(round: Round, cur: EventId, prevGood: set<EventId>, prevBad: seq<EventId>, floor: set<EventId>)

  /** An event obtained from a donor, with the id that was asked for. */
  datatype Pdu = Pdu(asked: EventId, event: Event)

  /** One hunt: the local queue, the ids ever put on it by an ancestor check, and the events collected. */
  datatype Hunt = Hunt(root: EventId, queue: seq<EventId>, searching: set<EventId>, collected: seq<Pdu>)

  datatype Repair =
    | RepairIdle
    | RepairEnded
    | Hunting(hunt: Hunt)
    | Finding(hunt: Hunt, cur: EventId)
    | Scanning(hunt: Hunt, cur: EventId, hits: seq<Event>)
    | ScanPrev(hunt: Hunt, cur: EventId, hits: seq<Event>, hit: Event)
    | ScanAuth(hunt: Hunt, cur: EventId, hits: seq<Event>, hit: Event, prevBad: seq<EventId>)
    | Sending(hunt: Hunt, rest: seq<Pdu>, out: seq<Pdu>)

  datatype Retry = Created | Waiting(attempts: nat) | RetryDone | Abandoned

  datatype Task = Task(id: EventId, stage: Retry)

  /** The keys of the `bot_working` map. */
  datatype Worker = FetchWorker | RepairWorker | RetryWorker(k: nat)

  datatype Control = Running | Paused | Stopped

  /** History: how often the fetch queue was written, and in order the ids put on the error queue, the
      id sets fetched by rounds that were not retries, and the ids searched for on the donors. */
  datatype Log = Log(fetchPuts: nat, errors: seq<EventId>, rounds: seq<set<EventId>>, searches: seq<EventId>)

  datatype State = State(
    fetchQ: seq<Item>, errorQ: seq<EventId>,
    ok: set<EventId>, error: set<EventId>, resolved: set<EventId>, attempted: set<EventId>,
    tried: set<EventId>,
    fetcher: Fetcher, repair: Repair, retries: seq<Task>, working: map<Worker, bool>,
    served: set<EventId>, control: Control, idleCount: nat, finished: bool, log: Log)

  datatype FetchStep =
    | FetchGet
    | FetchReply(found: set<EventId>)
    | FetchPick(cur: EventId)
    | FetchPrev(bad: seq<EventId>)
    | FetchAuth(bad: seq<EventId>)
    | FetchFinish
    | FetchQuit

  datatype RepairStep =
    | RepairGet
    | RepairPop
    | RepairFound(answers: seq<Option<Event>>)
    | RepairScan
    | RepairPrev(bad: seq<EventId>)
    | RepairAuth(bad: seq<EventId>)
    | RepairSend
    | RepairFinish
    | RepairQuit

  datatype RetryStep =
    | RetryStart(k: nat)
    | RetryCheck(k: nat, hit: bool)

  /** The world around the workers: the target server, the user's buttons, the status loop. */
  datatype OutsideStep =
    | Serve(now: set<EventId>)
    | Press(button: Control)
    | Tick

  datatype Step = ByFetcher(f: FetchStep) | ByRepair(r: RepairStep) | ByRetry(t: RetryStep) | Outside(o: OutsideStep)

  const SEND_LIMIT: nat := 50
  const RETRY_LIMIT: nat := 10
  const IDLE_LIMIT: nat := 5

  /** The state after the queue has been primed; `served` is what the target can serve at that moment. */
  function Init(room: Room, served: set<EventId>): State {
    State([Item(false, {room.start})], [], {}, {}, {}, {}, {},
          FetchIdle, RepairIdle, [], map[FetchWorker := false, RepairWorker := false],
          served, Running, 0, false, Log(1, [], [], []))
  }

  // ----- the fetcher

  /** A dequeued batch loses what was attempted before, unless it is a retry. */
  function Unseen(item: Item, attempted: set<EventId>): set<EventId> {
    if item.retry then item.ids else item.ids - attempted
  }

  function DoFetchGet(s: State): State
    requires s.fetchQ != []
  {
    var item := s.fetchQ[0];
    var ids := Unseen(item, s.attempted);
    s.(fetchQ := s.fetchQ[1..],
       working := s.working[FetchWorker := true],
       attempted := s.attempted + ids,
       fetcher := if ids == {} then Walking(Round(item.retry, {}, {}, {}))
                  else Fetching(item.retry, ids, s.served),
       log := if item.retry then s.log else s.log.(rounds := s.log.rounds + [ids]))
  }

  function DoFetchPick(s: State, cur: EventId): State
    requires s.fetcher.Walking? && cur in s.fetcher.round.todo
  {
    var round := s.fetcher.round.(todo := s.fetcher.round.todo - {cur});
    if cur in round.found then
      s.(ok := s.ok + {cur},
         resolved := if round.retry then s.resolved + {cur} else s.resolved,
         fetcher := AwaitPrev(round, cur, s.served))
    else
      s.(fetcher := Walking(round))
  }

  function DoFetchPrev(room: Room, s: State, bad: seq<EventId>): State
    requires s.fetcher.AwaitPrev?
  {
    var f := s.fetcher;
    s.(fetcher := AwaitAuth(f.round, f.cur, Elems(room.event(f.cur).prev) - Elems(bad), bad, s.served))
  }

  function DoFetchAuth(room: Room, s: State, bad: seq<EventId>): State
    requires s.fetcher.AwaitAuth?
  {
    var f := s.fetcher;
    var errors := Fresh(f.prevBad + bad, s.error);
    var good := f.prevGood + (Elems(room.event(f.cur).auth) - Elems(bad));
    s.(errorQ := s.errorQ + errors,
       error := s.error + Elems(f.prevBad + bad),
       fetcher := Walking(f.round.(next := f.round.next + good)),
       log := s.log.(errors := s.log.errors + errors))
  }

  function DoFetchFinish(s: State): State
    requires s.fetcher.Walking?
  {
    var next := s.fetcher.round.next;
    var s' := s.(working := s.working[FetchWorker := false], fetcher := FetchIdle);
    if next == {} then s'
    else s'.(fetchQ := s.fetchQ + [Item(false, next)], log := s.log.(fetchPuts := s.log.fetchPuts + 1))
  }

  // ----- the repair worker

  function DoRepairGet(s: State): State
    requires s.errorQ != []
  {
    s.(errorQ := s.errorQ[1..],
       working := s.working[RepairWorker := true],
       repair := Hunting(Hunt(s.errorQ[0], [s.errorQ[0]], {}, [])))
  }

  function DoRepairPop(s: State): State
    requires s.repair.Hunting?
  {
    var h := s.repair.hunt;
    if h.queue == [] then s.(repair := Sending(h, Reverse(h.collected), []))
    else
      var h', popped := h.(queue := h.queue[1..]), h.queue[0];
      if s.control == Stopped then s.(repair := Sending(h', Reverse(h.collected), []))
      else if popped in s.tried then s.(repair := Hunting(h'))
      else s.(tried := s.tried + {popped},
              repair := Finding(h', popped),
              log := s.log.(searches := s.log.searches + [popped]))
  }

  /** Among the donors' answers, in host order, the events whose verification map is not empty. */
  function Usable(answers: seq<Option<Event>>): seq<Event> {
    if answers == [] then []
    else (if answers[0].Some? && answers[0].value.verified != map[] then [answers[0].value] else [])
         + Usable(answers[1..])
  }

  function DoRepairScan(s: State): State
    requires s.repair.Scanning?
  {
    var r := s.repair;
    if r.hits == [] then s.(repair := Hunting(r.hunt))
    else s.(repair := ScanPrev(r.hunt.(collected := r.hunt.collected + [Pdu(r.cur, r.hits[0])]),
                               r.cur, r.hits[1..], r.hits[0]))
  }

  function DoRepairAuth(s: State, bad: seq<EventId>): State
    requires s.repair.ScanAuth?
  {
    var r := s.repair;
    var order := r.prevBad + bad;
    s.(repair := Scanning(r.hunt.(queue := r.hunt.queue + Fresh(order, r.hunt.searching),
                                  searching := r.hunt.searching + Elems(order)),
                          r.cur, r.hits))
  }

  function DoRepairSend(s: State): State
    requires s.repair.Sending?
  {
    var r := s.repair;
    var n := if |r.rest| < SEND_LIMIT then |r.rest| else SEND_LIMIT;
    s.(repair := r.(rest := r.rest[n..], out := r.out + r.rest[..n]))
  }

  function DoRepairFinish(s: State): State
    requires s.repair.Sending?
  {
    var s' := s.(working := s.working[RepairWorker := false], repair := RepairIdle);
    if s.repair.out == [] then s'
    else s'.(retries := s.retries + [Task(s.repair.hunt.root, Created)])
  }

  // ----- the retry workers

  function DoRetryStart(s: State, k: nat): State
    requires k < |s.retries|
  {
    var stage := if s.control == Stopped then Abandoned else Waiting(0);
    s.(retries := s.retries[k := s.retries[k].(stage := stage)],
       working := s.working[RetryWorker(k) := true])
  }

  function DoRetryCheck(s: State, k: nat, hit: bool): State
    requires k < |s.retries| && s.retries[k].stage.Waiting?
  {
    var task := s.retries[k];
    var attempts := task.stage.attempts + 1;
    if hit then
      s.(retries := s.retries[k := task.(stage := RetryDone)],
         working := s.working[RetryWorker(k) := false],
         fetchQ := s.fetchQ + [Item(true, {task.id})],
         log := s.log.(fetchPuts := s.log.fetchPuts + 1))
    else if attempts == RETRY_LIMIT then
      s.(retries := s.retries[k := task.(stage := RetryDone)],
         working := s.working[RetryWorker(k) := false])
    else
      s.(retries := s.retries[k := task.(stage := if s.control == Stopped then Abandoned else Waiting(attempts))])
  }

  // ----- the status loop

  predicate AllIdle(working: map<Worker, bool>) {
    forall w :: w in working ==> !working[w]
  }

  function DoTick(s: State): State {
    if s.control == Paused then s
    else if s.fetchQ == [] && s.errorQ == [] then
      var count := if AllIdle(s.working) then s.idleCount + 1 else 0;
      s.(idleCount := count, finished := s.control == Stopped || count > IDLE_LIMIT)
    else s.(finished := s.control == Stopped)
  }

  // ----- all steps

  predicate FetchEnabled(room: Room, s: State, step: FetchStep) {
    match step
    case FetchGet => s.fetcher == FetchIdle && s.fetchQ != []
    case FetchReply(found) => s.fetcher.Fetching? && found <= s.fetcher.ids
    case FetchPick(cur) => s.fetcher.Walking? && cur in s.fetcher.round.todo
    case FetchPrev(bad) => s.fetcher.AwaitPrev? && Elems(bad) <= Elems(room.event(s.fetcher.cur).prev)
    case FetchAuth(bad) => s.fetcher.AwaitAuth? && Elems(bad) <= Elems(room.event(s.fetcher.cur).auth)
    case FetchFinish => s.fetcher.Walking? && s.fetcher.round.todo == {}
    case FetchQuit => s.fetcher == FetchIdle && s.control == Stopped
  }

  function ApplyFetch(room: Room, s: State, step: FetchStep): State
    requires FetchEnabled(room, s, step)
  {
    match step
    case FetchGet => DoFetchGet(s)
    case FetchReply(found) => s.(fetcher := Walking(Round(s.fetcher.retry, found, s.fetcher.ids, {})))
    case FetchPick(cur) => DoFetchPick(s, cur)
    case FetchPrev(bad) => DoFetchPrev(room, s, bad)
    case FetchAuth(bad) => DoFetchAuth(room, s, bad)
    case FetchFinish => DoFetchFinish(s)
    case FetchQuit => s.(fetcher := FetchEnded)
  }

  predicate RepairEnabled(room: Room, s: State, step: RepairStep) {
    match step
    case RepairGet => s.repair == RepairIdle && s.errorQ != []
    case RepairPop => s.repair.Hunting?
    case RepairFound(answers) => s.repair.Finding? && |answers| == room.hosts
    case RepairScan => s.repair.Scanning?
    case RepairPrev(bad) => s.repair.ScanPrev? && Elems(bad) <= Elems(s.repair.hit.prev)
    case RepairAuth(bad) => s.repair.ScanAuth? && Elems(bad) <= Elems(s.repair.hit.auth)
    case RepairSend => s.repair.Sending? && s.repair.rest != []
    case RepairFinish => s.repair.Sending? && s.repair.rest == []
    case RepairQuit => s.repair == RepairIdle && s.control == Stopped
  }

  function ApplyRepair(room: Room, s: State, step: RepairStep): State
    requires RepairEnabled(room, s, step)
  {
    match step
    case RepairGet => DoRepairGet(s)
    case RepairPop => DoRepairPop(s)
    case RepairFound(answers) => s.(repair := Scanning(s.repair.hunt, s.repair.cur, Usable(answers)))
    case RepairScan => DoRepairScan(s)
    case RepairPrev(bad) => s.(repair := ScanAuth(s.repair.hunt, s.repair.cur, s.repair.hits, s.repair.hit, bad))
    case RepairAuth(bad) => DoRepairAuth(s, bad)
    case RepairSend => DoRepairSend(s)
    case RepairFinish => DoRepairFinish(s)
    case RepairQuit => s.(repair := RepairEnded)
  }

  predicate RetryEnabled(s: State, step: RetryStep) {
    match step
    case RetryStart(k) => k < |s.retries| && s.retries[k].stage == Created
    case RetryCheck(k, _) => k < |s.retries| && s.retries[k].stage.Waiting?
  }

  function ApplyRetry(s: State, step: RetryStep): State
    requires RetryEnabled(s, step)
  {
    match step
    case RetryStart(k) => DoRetryStart(s, k)
    case RetryCheck(k, hit) => DoRetryCheck(s, k, hit)
  }

  function ApplyOutside(s: State, step: OutsideStep): State {
    match step
    case Serve(now) => s.(served := now)
    case Press(button) => s.(control := button)
    case Tick => DoTick(s)
  }

  /** No step is possible once the status loop has cancelled the tasks. */
  predicate Enabled(room: Room, s: State, step: Step) {
    && !s.finished
    && match step
       case ByFetcher(f) => FetchEnabled(room, s, f)
       case ByRepair(r) => RepairEnabled(room, s, r)
       case ByRetry(t) => RetryEnabled(s, t)
       case Outside(_) => true
  }

  function Apply(room: Room, s: State, step: Step): State
    requires Enabled(room, s, step)
  {
    match step
    case ByFetcher(f) => ApplyFetch(room, s, f)
    case ByRepair(r) => ApplyRepair(room, s, r)
    case ByRetry(t) => ApplyRetry(s, t)
    case Outside(o) => ApplyOutside(s, o)
  }

  // ----- runs

  ghost predicate ValidRun(room: Room, s: State, steps: seq<Step>)
    decreases |steps|
  {
    steps == [] || (Enabled(room, s, steps[0]) && ValidRun(room, Apply(room, s, steps[0]), steps[1..]))
  }

  ghost function End(room: Room, s: State, steps: seq<Step>): State
    requires ValidRun(room, s, steps)
    decreases |steps|
  {
    if steps == [] then s else End(room, Apply(room, s, steps[0]), steps[1..])
  }

  /** How many of the steps are taken by the fetcher, the repair worker or a retry worker. */
  ghost function WorkerSteps(steps: seq<Step>): nat {
    if steps == [] then 0 else (if steps[0].Outside? then 0 else 1) + WorkerSteps(steps[1..])
  }

  ghost predicate Reaches(room: Room, s: State, t: State) {
    exists steps :: ValidRun(room, s, steps) && End(room, s, steps) == t
  }

  /** Two runs one after the other are one run. */
  lemma {:induction false} RunJoins(room: Room, s: State, a: seq<Step>, b: seq<Step>)
    requires ValidRun(room, s, a) && ValidRun(room, End(room, s, a), b)
    ensures ValidRun(room, s, a + b) && End(room, s, a + b) == End(room, End(room, s, a), b)
    decreases |a|
  {
    if a == [] {
      assert a + b == b;
    } else {
      assert (a + b)[0] == a[0] && (a + b)[1..] == a[1..] + b;
      RunJoins(room, Apply(room, s, a[0]), a[1..], b);
    }
  }

  lemma {:induction false} RunSplits(room: Room, s: State, a: seq<Step>, b: seq<Step>)
    requires ValidRun(room, s, a + b)
    ensures ValidRun(room, s, a) && ValidRun(room, End(room, s, a), b)
    ensures End(room, s, a + b) == End(room, End(room, s, a), b)
    decreases |a|
  {
    if a == [] {
      assert a + b == b;
    } else {
      assert (a + b)[0] == a[0] && (a + b)[1..] == a[1..] + b;
      RunSplits(room, Apply(room, s, a[0]), a[1..], b);
    }
  }

  lemma OneStep(room: Room, s: State, step: Step)
    ensures ValidRun(room, s, [step]) <==> Enabled(room, s, step)
    ensures Enabled(room, s, step) ==> End(room, s, [step]) == Apply(room, s, step)
  {
    assert [step][1..] == [];
  }

  lemma RunSnoc(room: Room, s: State, steps: seq<Step>, step: Step)
    requires ValidRun(room, s, steps) && Enabled(room, End(room, s, steps), step)
    ensures ValidRun(room, s, steps + [step])
    ensures End(room, s, steps + [step]) == Apply(room, End(room, s, steps), step)
  {
    OneStep(room, End(room, s, steps), step);
    RunJoins(room, s, steps, [step]);
  }

  lemma {:induction false} UsableAreAnswers(answers: seq<Option<Event>>)
    ensures |Usable(answers)| <= |answers|
    ensures forall e :: e in Usable(answers) <==> Some(e) in answers && e.verified != map[]
  {
    if answers != [] {
      UsableAreAnswers(answers[1..]);
      assert forall e :: Some(e) in answers <==> Some(e) == answers[0] || Some(e) in answers[1..];
    }
  }

  lemma {:induction false} UsableSnoc(answers: seq<Option<Event>>, answer: Option<Event>)
    ensures Usable(answers + [answer]) ==
            Usable(answers) + if answer.Some? && answer.value.verified != map[] then [answer.value] else []
  {
    if answers == [] {
      assert Usable([answer][1..]) == [];
    } else {
      assert (answers + [answer])[1..] == answers[1..] + [answer];
      UsableSnoc(answers[1..], answer);
    }
  }
}
