/**
 * Fetching a batch of events with up to three workers on one queue, waiting on the queue's join.
 * A step is one worker's code between two suspension points, or the death of a worker that holds an id.
 */
module EventPool {
  import opened Collections

  type EventId = string

  /** What a worker brings back: an event or the description of an error, which is not told apart here. */
  type Answer = string

  datatype Worker = Free | Holding(id: EventId) | Dead(id: EventId)

  /** `unfinished` is the queue's count of ids put on it and not yet reported done. */
  datatype Pool = Pool(queue: seq<EventId>, unfinished: int, workers: seq<Worker>, results: map<EventId, Answer>)

  datatype Step = Take(w: nat) | Deliver(w: nat, answer: Answer) | Die(w: nat)

  const MAX_WORKERS: nat := 3

  function Start(ids: seq<EventId>): Pool {
    var n := if |ids| < MAX_WORKERS then |ids| else MAX_WORKERS;
    Pool(ids, |ids|, seq(n, _ => Free), map[])
  }

  predicate Enabled(p: Pool, step: Step) {
    match step
    case Take(w) => w < |p.workers| && p.workers[w].Free? && p.queue != []
    case Deliver(w, _) => w < |p.workers| && p.workers[w].Holding?
    case Die(w) => w < |p.workers| && p.workers[w].Holding?
  }

  function Apply(p: Pool, step: Step): Pool
    requires Enabled(p, step)
  {
    match step
    case Take(w) => p.(queue := p.queue[1..], workers := p.workers[w := Holding(p.queue[0])])
    case Deliver(w, answer) =>
      p.(results := p.results[p.workers[w].id := answer],
         unfinished := p.unfinished - 1,
         workers := p.workers[w := Free])
    case Die(w) => p.(workers := p.workers[w := Dead(p.workers[w].id)])
  }

  /** The join returns when everything put on the queue was reported done. */
  predicate Joined(p: Pool) {
    p.unfinished == 0
  }

  ghost predicate ValidRun(p: Pool, steps: seq<Step>)
    decreases |steps|
  {
    steps == [] || (Enabled(p, steps[0]) && ValidRun(Apply(p, steps[0]), steps[1..]))
  }

  ghost function End(p: Pool, steps: seq<Step>): Pool
    requires ValidRun(p, steps)
    decreases |steps|
  {
    if steps == [] then p else End(Apply(p, steps[0]), steps[1..])
  }

  // ----- the invariant

  /** How many workers hold an id, dead ones included. */
  function Taken(workers: seq<Worker>): nat {
    if workers == [] then 0 else (if workers[0].Free? then 0 else 1) + Taken(workers[1..])
  }

  lemma {:induction false} TakenUpdate(workers: seq<Worker>, w: nat, x: Worker)
    requires w < |workers|
    ensures Taken(workers[w := x]) == Taken(workers) - (if workers[w].Free? then 0 else 1) + if x.Free? then 0 else 1
  {
    if w == 0 {
      assert workers[0 := x][1..] == workers[1..];
    } else {
      assert workers[w := x][1..] == workers[1..][w - 1 := x];
      TakenUpdate(workers[1..], w - 1, x);
    }
  }

  lemma {:induction false} TakenIsZeroIff(workers: seq<Worker>)
    ensures Taken(workers) == 0 <==> forall w :: 0 <= w < |workers| ==> workers[w].Free?
  {
    if workers != [] {
      TakenIsZeroIff(workers[1..]);
      assert (forall w :: 0 <= w < |workers| ==> workers[w].Free?) <==>
             workers[0].Free? && forall w :: 0 <= w < |workers[1..]| ==> workers[1..][w].Free?
      by {
        assert forall w :: 1 <= w < |workers| ==> workers[w] == workers[1..][w - 1];
      }
    }
  }

  ghost predicate Held(workers: seq<Worker>, id: EventId) {
    exists w :: 0 <= w < |workers| && !workers[w].Free? && workers[w].id == id
  }

  /** Unfinished ids are the queued and the held ones, and every requested id is queued, held or answered. */
  ghost predicate PoolInv(p: Pool, ids: set<EventId>) {
    && p.unfinished == |p.queue| + Taken(p.workers)
    && p.results.Keys <= ids
    && (forall id :: id in p.queue ==> id in ids)
    && (forall w :: 0 <= w < |p.workers| && !p.workers[w].Free? ==> p.workers[w].id in ids)
    && (forall id :: id in ids ==> id in p.queue || Held(p.workers, id) || id in p.results)
  }

  lemma HeldAfter(workers: seq<Worker>, w: nat, x: Worker, id: EventId)
    requires w < |workers| && Held(workers, id)
    ensures Held(workers[w := x], id) || (!workers[w].Free? && workers[w].id == id)
  {
    var v :| 0 <= v < |workers| && !workers[v].Free? && workers[v].id == id;
    if v != w {
      assert workers[w := x][v] == workers[v];
    }
  }

  lemma PoolStep(p: Pool, step: Step, ids: set<EventId>)
    requires Enabled(p, step) && PoolInv(p, ids)
    ensures PoolInv(Apply(p, step), ids)
  {
    var q := Apply(p, step);
    var w := step.w;
    TakenUpdate(p.workers, w, q.workers[w]);
    forall id | id in ids
      ensures id in q.queue || Held(q.workers, id) || id in q.results
    {
      if Held(p.workers, id) {
        HeldAfter(p.workers, w, q.workers[w], id);
        assert q.workers[w] == q.workers[w];
      } else if id in p.queue && step.Take? {
        assert id == p.queue[0] || id in p.queue[1..];
        assert q.workers[w].id == p.queue[0];
      }
    }
  }

  lemma {:induction false} PoolOverRun(p: Pool, steps: seq<Step>, ids: set<EventId>)
    requires ValidRun(p, steps) && PoolInv(p, ids)
    ensures PoolInv(End(p, steps), ids)
    decreases |steps|
  {
    if steps != [] {
      PoolStep(p, steps[0], ids);
      PoolOverRun(Apply(p, steps[0]), steps[1..], ids);
    }
  }

  lemma StartInv(ids: seq<EventId>)
    ensures PoolInv(Start(ids), Elems(ids))
  {
    TakenIsZeroIff(Start(ids).workers);
  }

  /** Whatever the interleaving and whichever workers died: if the join returns, the answers are for
      exactly the requested ids, and no worker died holding one. */
  lemma JoinHasEveryAnswer(ids: seq<EventId>, steps: seq<Step>)
    requires ValidRun(Start(ids), steps) && Joined(End(Start(ids), steps))
    ensures var p := End(Start(ids), steps);
            && p.results.Keys == Elems(ids)
            && forall w :: 0 <= w < |p.workers| ==> p.workers[w].Free?
  {
    StartInv(ids);
    PoolOverRun(Start(ids), steps, Elems(ids));
    TakenIsZeroIff(End(Start(ids), steps).workers);
  }

  // ----- which answers come back

  /** Every delivery of the run brings the server's answer for the id its worker holds. */
  ghost predicate Truthful(p: Pool, steps: seq<Step>, answer: EventId -> Answer)
    requires ValidRun(p, steps)
    decreases |steps|
  {
    steps == [] || (BringsAnswer(p, steps[0], answer) && Truthful(Apply(p, steps[0]), steps[1..], answer))
  }

  predicate BringsAnswer(p: Pool, step: Step, answer: EventId -> Answer)
    requires Enabled(p, step)
  {
    step.Deliver? ==> step.answer == answer(p.workers[step.w].id)
  }

  ghost predicate HasAnswers(results: map<EventId, Answer>, answer: EventId -> Answer) {
    forall id :: id in results ==> results[id] == answer(id)
  }

  lemma {:induction false} AnswersOverRun(p: Pool, steps: seq<Step>, answer: EventId -> Answer)
    requires ValidRun(p, steps) && Truthful(p, steps, answer) && HasAnswers(p.results, answer)
    ensures HasAnswers(End(p, steps).results, answer)
    decreases |steps|
  {
    if steps != [] {
      AnswersOverRun(Apply(p, steps[0]), steps[1..], answer);
    }
  }

  /** Each requested id, and nothing else, with the answer that the server gave for it. */
  ghost predicate IsAnswered(results: map<EventId, Answer>, ids: seq<EventId>, answer: EventId -> Answer) {
    results.Keys == Elems(ids) && HasAnswers(results, answer)
  }

  /** If the join returns, every id has the answer that was given for that very id. */
  lemma JoinHasTheAnswers(ids: seq<EventId>, steps: seq<Step>, answer: EventId -> Answer)
    requires ValidRun(Start(ids), steps) && Truthful(Start(ids), steps, answer) && Joined(End(Start(ids), steps))
    ensures IsAnswered(End(Start(ids), steps).results, ids, answer)
  {
    JoinHasEveryAnswer(ids, steps);
    AnswersOverRun(Start(ids), steps, answer);
  }

  // ----- when the join returns

  function StepsLeft(p: Pool): nat {
    2 * |p.queue| + Living(p.workers)
  }

  function Living(workers: seq<Worker>): nat {
    if workers == [] then 0 else (if workers[0].Holding? then 1 else 0) + Living(workers[1..])
  }

  lemma {:induction false} LivingUpdate(workers: seq<Worker>, w: nat, x: Worker)
    requires w < |workers|
    ensures Living(workers[w := x]) ==
            Living(workers) - (if workers[w].Holding? then 1 else 0) + if x.Holding? then 1 else 0
  {
    if w == 0 {
      assert workers[0 := x][1..] == workers[1..];
    } else {
      assert workers[w := x][1..] == workers[1..][w - 1 := x];
      LivingUpdate(workers[1..], w - 1, x);
    }
  }

  /** Every step lowers the number of steps left. */
  lemma {:induction false} PoolTerminates(p: Pool, steps: seq<Step>)
    requires ValidRun(p, steps)
    ensures |steps| + StepsLeft(End(p, steps)) <= StepsLeft(p)
    decreases |steps|
  {
    if steps != [] {
      var q := Apply(p, steps[0]);
      LivingUpdate(p.workers, steps[0].w, q.workers[steps[0].w]);
      PoolTerminates(q, steps[1..]);
    }
  }

  /** No run is longer than two steps per id. */
  lemma PoolRunsAreShort(ids: seq<EventId>, steps: seq<Step>)
    requires ValidRun(Start(ids), steps)
    ensures |steps| <= 2 * |ids|
  {
    PoolTerminates(Start(ids), steps);
    FreeDoNothing(Start(ids).workers);
  }

  lemma {:induction false} FreeDoNothing(workers: seq<Worker>)
    requires forall w :: 0 <= w < |workers| ==> workers[w].Free?
    ensures Living(workers) == 0
  {
    if workers != [] {
      FreeDoNothing(workers[1..]);
    }
  }

  /** There are as many workers as ids, but no more than three. */
  lemma AtMostThreeWorkers(ids: seq<EventId>, steps: seq<Step>)
    requires ValidRun(Start(ids), steps)
    ensures |End(Start(ids), steps).workers| == if |ids| <= 3 then |ids| else 3
  {
    WorkersStay(Start(ids), steps);
  }

  ghost predicate Stuck(p: Pool) {
    forall step :: !Enabled(p, step)
  }

  /** Once no worker can move, the join has returned exactly when no worker has died. */
  lemma JoinReturnsIffNoneDied(ids: seq<EventId>, steps: seq<Step>)
    requires ValidRun(Start(ids), steps) && Stuck(End(Start(ids), steps))
    ensures var p := End(Start(ids), steps);
            Joined(p) <==> forall w :: 0 <= w < |p.workers| ==> !p.workers[w].Dead?
  {
    var p := End(Start(ids), steps);
    StartInv(ids);
    PoolOverRun(Start(ids), steps, Elems(ids));
    TakenIsZeroIff(p.workers);
    WorkersStay(Start(ids), steps);
    if forall w :: 0 <= w < |p.workers| ==> !p.workers[w].Dead? {
      forall w: nat | w < |p.workers|
        ensures p.workers[w].Free?
      {
        assert !Enabled(p, Die(w));
      }
      NoWorkersNoWork(ids, steps);
      assert p.queue != [] && |p.workers| > 0 && p.workers[0].Free? ==> Enabled(p, Take(0));
    }
  }

  lemma {:induction false} WorkersStay(p: Pool, steps: seq<Step>)
    requires ValidRun(p, steps)
    ensures |End(p, steps).workers| == |p.workers|
    ensures |End(p, steps).queue| <= |p.queue|
    decreases |steps|
  {
    if steps != [] {
      WorkersStay(Apply(p, steps[0]), steps[1..]);
    }
  }

  lemma NoWorkersNoWork(ids: seq<EventId>, steps: seq<Step>)
    requires ValidRun(Start(ids), steps)
    ensures End(Start(ids), steps).queue != [] ==> |End(Start(ids), steps).workers| > 0
  {
    WorkersStay(Start(ids), steps);
  }

  // ----- the worker's loop body on the shared fields

  class Fetch {
    var queue: seq<EventId>
    var unfinished: int
    var workers: seq<Worker>
    var eventToEventBase: map<EventId, Answer>

    ghost function View(): Pool
      reads this
    {
      Pool(queue, unfinished, workers, eventToEventBase)
    }

    constructor (eventsList: seq<EventId>)
      ensures View() == Start(eventsList)
    {
      var eventQueue: seq<EventId> := [];
      for i := 0 to |eventsList|
        invariant eventQueue == eventsList[..i]
      {
        eventQueue := eventQueue + [eventsList[i]];
      }
      queue, unfinished, eventToEventBase := eventQueue, |eventQueue|, map[];
      workers := seq(if |eventsList| < MAX_WORKERS then |eventsList| else MAX_WORKERS, _ => Free);
    }

    method TakeId(w: nat)
      requires Enabled(View(), Take(w))
      modifies this
      ensures View() == Apply(old(View()), Take(w))
    {
      var workerEventId := queue[0];
      queue := queue[1..];
      workers := workers[w := Holding(workerEventId)];
    }

    method StoreAnswer(w: nat, answer: Answer)
      requires Enabled(View(), Deliver(w, answer))
      modifies this
      ensures View() == Apply(old(View()), Deliver(w, answer))
    {
      eventToEventBase := eventToEventBase[workers[w].id := answer];
      unfinished := unfinished - 1;
      workers := workers[w := Free];
    }

    /** An exception ends the worker; the id it holds is never reported done. */
    method LoseWorker(w: nat)
      requires Enabled(View(), Die(w))
      modifies this
      ensures View() == Apply(old(View()), Die(w))
    {
      workers := workers[w := Dead(workers[w].id)];
    }

    method TakeTurn(step: Step)
      requires Enabled(View(), step)
      modifies this
      ensures View() == Apply(old(View()), step)
    {
      match step
      case Take(w) => TakeId(w);
      case Deliver(w, answer) => StoreAnswer(w, answer);
      case Die(w) => LoseWorker(w);
    }
  }

  /** The whole fetch under one interleaving.  It returns answers exactly when the join does, and then for
      exactly the requested ids; under an interleaving that cannot be continued, exactly when nobody died. */
  method GetEventsFromServer(eventsList: seq<EventId>, schedule: seq<Step>)
    returns (answers: Option<map<EventId, Answer>>)
    requires ValidRun(Start(eventsList), schedule)
    ensures |schedule| <= 2 * |eventsList|
    ensures answers.Some? <==> Joined(End(Start(eventsList), schedule))
    ensures answers.Some? ==> answers.value.Keys == Elems(eventsList)
    ensures forall answer: EventId -> Answer :: answers.Some? && Truthful(Start(eventsList), schedule, answer) ==>
              IsAnswered(answers.value, eventsList, answer)
    ensures Stuck(End(Start(eventsList), schedule)) ==> (answers.Some? <==> forall w :: Die(w) !in schedule)
  {
    var fetch := new Fetch(eventsList);
    for i := 0 to |schedule|
      invariant ValidRun(Start(eventsList), schedule[..i])
      invariant fetch.View() == End(Start(eventsList), schedule[..i])
    {
      NextTurn(Start(eventsList), schedule, i);
      fetch.TakeTurn(schedule[i]);
    }
    assert schedule[..|schedule|] == schedule;
    PoolRunsAreShort(eventsList, schedule);
    if fetch.unfinished == 0 {
      JoinHasEveryAnswer(eventsList, schedule);
      answers := Some(fetch.eventToEventBase);
      forall answer: EventId -> Answer | Truthful(Start(eventsList), schedule, answer)
        ensures IsAnswered(answers.value, eventsList, answer)
      {
        JoinHasTheAnswers(eventsList, schedule, answer);
      }
    } else {
      answers := None;
    }
    if Stuck(End(Start(eventsList), schedule)) {
      JoinReturnsIffNoneDied(eventsList, schedule);
      DeathsStay(Start(eventsList), schedule);
    }
  }

  lemma {:induction false} NextTurn(p: Pool, steps: seq<Step>, i: nat)
    requires ValidRun(p, steps) && i < |steps|
    ensures ValidRun(p, steps[..i]) && Enabled(End(p, steps[..i]), steps[i])
    ensures ValidRun(p, steps[..i + 1]) && End(p, steps[..i + 1]) == Apply(End(p, steps[..i]), steps[i])
    decreases |steps|
  {
    if i == 0 {
      assert steps[..1] == [steps[0]] && [steps[0]][1..] == [];
    } else {
      NextTurn(Apply(p, steps[0]), steps[1..], i - 1);
      assert steps[..i][1..] == steps[1..][..i - 1] && steps[..i + 1][1..] == steps[1..][..i];
    }
  }

  ghost predicate SomeDead(p: Pool) {
    exists w :: 0 <= w < |p.workers| && p.workers[w].Dead?
  }

  /** A worker is dead at the end exactly when one was dead at the start or died on the way. */
  lemma {:induction false} DeathsStay(p: Pool, steps: seq<Step>)
    requires ValidRun(p, steps)
    ensures SomeDead(End(p, steps)) <==> SomeDead(p) || exists w :: Die(w) in steps
    decreases |steps|
  {
    if steps != [] {
      var q := Apply(p, steps[0]);
      DeathsStay(q, steps[1..]);
      OneDeath(p, steps[0]);
      forall w ensures Die(w) in steps <==> steps[0] == Die(w) || Die(w) in steps[1..] {}
    }
  }

  lemma OneDeath(p: Pool, step: Step)
    requires Enabled(p, step)
    ensures SomeDead(Apply(p, step)) <==> SomeDead(p) || step.Die?
  {
    var q := Apply(p, step);
    if w :| 0 <= w < |p.workers| && p.workers[w].Dead? {
      assert q.workers[w].Dead?;
    }
    if step.Die? {
      assert q.workers[step.w].Dead?;
    }
  }
}
