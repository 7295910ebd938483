/**
 * The coroutines' code between suspension points, updating the shared fields in place.  Every method
 * is proved to do exactly the step of the state machine with the same name.
 */
module RoomWalkBot {
  import opened Collections
  import opened RoomWalk
  import opened RoomWalkSafety
  import opened RoomWalkTermination
  import opened RoomWalkClosure
  import opened RoomWalkEnding
  import opened RoomWalkRecords
  import opened RoomWalkRetry

  /** The host loop: every host that has the event with a non-empty verification map is a hit; the loop
      does not stop at the first one, and a map of failed verdicts is not empty. */
  method FilterUsable(answers: seq<Option<Event>>) returns (hits: seq<Event>)
    ensures hits == Usable(answers)
  {
    hits := [];
    for i := 0 to |answers|
      invariant hits == Usable(answers[..i])
    {
      UsableSnoc(answers[..i], answers[i]);
      assert answers[..i + 1] == answers[..i] + [answers[i]];
      if answers[i].Some? && answers[i].value.verified != map[] {
        hits := hits + [answers[i].value];
      }
    }
    assert answers[..|answers|] == answers;
  }

  /** The two loops over the missing ancestors, prev events first. */
  method QueueUnsearched(before: seq<EventId>, searchingBefore: set<EventId>, bad: seq<EventId>)
    returns (queue: seq<EventId>, searching: set<EventId>)
    ensures queue == before + Fresh(bad, searchingBefore)
    ensures searching == searchingBefore + Elems(bad)
  {
    queue, searching := before, searchingBefore;
    for i := 0 to |bad|
      invariant searching == searchingBefore + Elems(bad[..i])
      invariant queue == before + Fresh(bad[..i], searchingBefore)
    {
      FreshSnoc(bad[..i], bad[i], searchingBefore);
      assert bad[..i + 1] == bad[..i] + [bad[i]];
      if bad[i] !in searching {
        searching := searching + {bad[i]};
        queue := queue + [bad[i]];
      }
    }
    assert bad[..|bad|] == bad;
  }

  class Walk {
    const room: Room
    var fetchQueue: seq<Item>
    var errorQueue: seq<EventId>
    var okList: set<EventId>
    var errorList: set<EventId>
    var resolvedList: set<EventId>
    var attemptedOnce: set<EventId>
    var alreadyTried: set<EventId>
    var botWorking: map<Worker, bool>
    var fetcher: Fetcher
    var repair: Repair
    var retries: seq<Task>
    var served: set<EventId>
    var control: Control
    var retryForFinish: nat
    var finished: bool
    ghost var log: Log

    ghost function View(): State
      reads this
    {
      State(fetchQueue, errorQueue, okList, errorList, resolvedList, attemptedOnce, alreadyTried,
            fetcher, repair, retries, botWorking, served, control, retryForFinish, finished, log)
    }

    constructor (room: Room, served: set<EventId>)
      ensures this.room == room && View() == Init(room, served)
    {
      this.room := room;
      fetchQueue, errorQueue := [Item(false, {room.start})], [];
      okList, errorList, resolvedList, attemptedOnce, alreadyTried := {}, {}, {}, {}, {};
      botWorking := map[FetchWorker := false, RepairWorker := false];
      fetcher, repair, retries := FetchIdle, RepairIdle, [];
      this.served, control, retryForFinish, finished := served, Running, 0, false;
      log := Log(1, [], [], []);
    }

    // ----- the fetcher

    /** Dequeue a batch, drop what was analysed before, and ask the target for the rest. */
    method TakeBatch()
      requires Enabled(room, View(), ByFetcher(FetchGet))
      modifies this
      ensures View() == Apply(room, old(View()), ByFetcher(FetchGet))
    {
      var item := fetchQueue[0];
      fetchQueue := fetchQueue[1..];
      botWorking := botWorking[FetchWorker := true];
      var nextEventIds := item.ids;
      if !item.retry {
        nextEventIds := nextEventIds - attemptedOnce;
        log := log.(rounds := log.rounds + [nextEventIds]);
      }
      attemptedOnce := attemptedOnce + nextEventIds;
      fetcher := if nextEventIds != {} then Fetching(item.retry, nextEventIds, served)
                 else Walking(Round(item.retry, {}, {}, {}));
    }

    /** The target's answer to a batch. */
    method Receive(found: set<EventId>)
      requires Enabled(room, View(), ByFetcher(FetchReply(found)))
      modifies this
      ensures View() == Apply(room, old(View()), ByFetcher(FetchReply(found)))
    {
      fetcher := Walking(Round(fetcher.retry, found, fetcher.ids, {}));
    }

    /** Turn to one id of the batch; a found one becomes OK, and resolved if this is a retry. */
    method Pick(nextEventId: EventId)
      requires Enabled(room, View(), ByFetcher(FetchPick(nextEventId)))
      modifies this
      ensures View() == Apply(room, old(View()), ByFetcher(FetchPick(nextEventId)))
    {
      var round := fetcher.round.(todo := fetcher.round.todo - {nextEventId});
      if nextEventId in round.found {
        if round.retry {
          resolvedList := resolvedList + {nextEventId};
        }
        okList := okList + {nextEventId};
        fetcher := AwaitPrev(round, nextEventId, served);
      } else {
        fetcher := Walking(round);
      }
    }

    /** The target's report on the prev events of the event in hand. */
    method CheckPrev(bad: seq<EventId>)
      requires Enabled(room, View(), ByFetcher(FetchPrev(bad)))
      modifies this
      ensures View() == Apply(room, old(View()), ByFetcher(FetchPrev(bad)))
    {
      var prevGood := Elems(room.event(fetcher.cur).prev) - Elems(bad);
      fetcher := AwaitAuth(fetcher.round, fetcher.cur, prevGood, bad, served);
    }

    /** Put each id not yet known to be missing on the error queue. */
    method EnqueueMissing(bad: seq<EventId>)
      modifies `errorQueue, `errorList, `log
      ensures errorList == old(errorList) + Elems(bad)
      ensures errorQueue == old(errorQueue) + Fresh(bad, old(errorList))
      ensures log == old(log).(errors := old(log.errors) + Fresh(bad, old(errorList)))
    {
      ghost var before := errorList;
      for i := 0 to |bad|
        invariant errorList == before + Elems(bad[..i])
        invariant errorQueue == old(errorQueue) + Fresh(bad[..i], before)
        invariant log == old(log).(errors := old(log.errors) + Fresh(bad[..i], before))
      {
        FreshSnoc(bad[..i], bad[i], before);
        assert bad[..i + 1] == bad[..i] + [bad[i]];
        if bad[i] !in errorList {
          errorQueue := errorQueue + [bad[i]];
          errorList := errorList + {bad[i]};
          log := log.(errors := log.errors + [bad[i]]);
        }
      }
      assert bad[..|bad|] == bad;
    }

    /** With both ancestor checks back, report the missing ancestors and queue the others. */
    method FinishEvent(authBad: seq<EventId>)
      requires Enabled(room, View(), ByFetcher(FetchAuth(authBad)))
      modifies this
      ensures View() == Apply(room, old(View()), ByFetcher(FetchAuth(authBad)))
    {
      EnqueueMissing(fetcher.prevBad + authBad);
      var authGood := Elems(room.event(fetcher.cur).auth) - Elems(authBad);
      var next := fetcher.round.next + (fetcher.prevGood + authGood);
      fetcher := Walking(fetcher.round.(next := next));
    }

    /** End a round: queue what it turned up, if anything, and report idle. */
    method FinishRound()
      requires Enabled(room, View(), ByFetcher(FetchFinish))
      modifies this
      ensures View() == Apply(room, old(View()), ByFetcher(FetchFinish))
    {
      var nextListToGet := fetcher.round.next;
      if nextListToGet != {} {
        fetchQueue := fetchQueue + [Item(false, nextListToGet)];
        log := log.(fetchPuts := log.fetchPuts + 1);
      }
      botWorking := botWorking[FetchWorker := false];
      fetcher := FetchIdle;
    }

    method FetchTurn(step: FetchStep)
      requires Enabled(room, View(), ByFetcher(step))
      modifies this
      ensures View() == Apply(room, old(View()), ByFetcher(step))
    {
      match step
      case FetchGet => TakeBatch();
      case FetchReply(found) => Receive(found);
      case FetchPick(cur) => Pick(cur);
      case FetchPrev(bad) => CheckPrev(bad);
      case FetchAuth(bad) => FinishEvent(bad);
      case FetchFinish => FinishRound();
      case FetchQuit => fetcher := FetchEnded;
    }

    // ----- the repair worker

    method TakeMissing()
      requires Enabled(room, View(), ByRepair(RepairGet))
      modifies this
      ensures View() == Apply(room, old(View()), ByRepair(RepairGet))
    {
      var nextEventId := errorQueue[0];
      errorQueue := errorQueue[1..];
      botWorking := botWorking[RepairWorker := true];
      repair := Hunting(Hunt(nextEventId, [nextEventId], {}, []));
    }

    /** The head of the hunting loop. */
    method NextToFind()
      requires Enabled(room, View(), ByRepair(RepairPop))
      modifies this
      ensures View() == Apply(room, old(View()), ByRepair(RepairPop))
    {
      var hunt := repair.hunt;
      if hunt.queue == [] {
        repair := Sending(hunt, Reverse(hunt.collected), []);
        return;
      }
      var popped := hunt.queue[0];
      hunt := hunt.(queue := hunt.queue[1..]);
      if control == Stopped {
        repair := Sending(hunt, Reverse(hunt.collected), []);
        return;
      }
      if popped in alreadyTried {
        repair := Hunting(hunt);
        return;
      }
      alreadyTried := alreadyTried + {popped};
      log := log.(searches := log.searches + [popped]);
      repair := Finding(hunt, popped);
    }

    method KeepUsable(answers: seq<Option<Event>>)
      requires Enabled(room, View(), ByRepair(RepairFound(answers)))
      modifies this
      ensures View() == Apply(room, old(View()), ByRepair(RepairFound(answers)))
    {
      var hits := FilterUsable(answers);
      repair := Scanning(repair.hunt, repair.cur, hits);
    }

    method Collect()
      requires Enabled(room, View(), ByRepair(RepairScan))
      modifies this
      ensures View() == Apply(room, old(View()), ByRepair(RepairScan))
    {
      if repair.hits == [] {
        repair := Hunting(repair.hunt);
      } else {
        var collected := repair.hunt.collected + [Pdu(repair.cur, repair.hits[0])];
        repair := ScanPrev(repair.hunt.(collected := collected), repair.cur, repair.hits[1..], repair.hits[0]);
      }
    }

    /** The target's report on the prev events of a hit. */
    method HuntPrev(bad: seq<EventId>)
      requires Enabled(room, View(), ByRepair(RepairPrev(bad)))
      modifies this
      ensures View() == Apply(room, old(View()), ByRepair(RepairPrev(bad)))
    {
      repair := ScanAuth(repair.hunt, repair.cur, repair.hits, repair.hit, bad);
    }

    /** Queue locally every missing ancestor not yet searched for in this hunt. */
    method HuntAncestors(authBad: seq<EventId>)
      requires Enabled(room, View(), ByRepair(RepairAuth(authBad)))
      modifies this
      ensures View() == Apply(room, old(View()), ByRepair(RepairAuth(authBad)))
    {
      var queue, searching := QueueUnsearched(repair.hunt.queue, repair.hunt.searching, repair.prevBad + authBad);
      repair := Scanning(repair.hunt.(queue := queue, searching := searching), repair.cur, repair.hits);
    }

    /** Send the next fifty events. */
    method SendSome()
      requires Enabled(room, View(), ByRepair(RepairSend))
      modifies this
      ensures View() == Apply(room, old(View()), ByRepair(RepairSend))
    {
      var limit := if |repair.rest| < SEND_LIMIT then |repair.rest| else SEND_LIMIT;
      var limitedList := repair.rest[..limit];
      repair := Sending(repair.hunt, repair.rest[limit..], repair.out + limitedList);
    }

    /** Start a retry worker if anything was sent. */
    method FinishHunt()
      requires Enabled(room, View(), ByRepair(RepairFinish))
      modifies this
      ensures View() == Apply(room, old(View()), ByRepair(RepairFinish))
    {
      if repair.out != [] {
        retries := retries + [Task(repair.hunt.root, Created)];
      }
      botWorking := botWorking[RepairWorker := false];
      repair := RepairIdle;
    }

    method RepairTurn(step: RepairStep)
      requires Enabled(room, View(), ByRepair(step))
      modifies this
      ensures View() == Apply(room, old(View()), ByRepair(step))
    {
      match step
      case RepairGet => TakeMissing();
      case RepairPop => NextToFind();
      case RepairFound(answers) => KeepUsable(answers);
      case RepairScan => Collect();
      case RepairPrev(bad) => HuntPrev(bad);
      case RepairAuth(bad) => HuntAncestors(bad);
      case RepairSend => SendSome();
      case RepairFinish => FinishHunt();
      case RepairQuit => repair := RepairEnded;
    }

    // ----- a retry worker

    method StartRetry(k: nat)
      requires Enabled(room, View(), ByRetry(RetryStart(k)))
      modifies this
      ensures View() == Apply(room, old(View()), ByRetry(RetryStart(k)))
    {
      botWorking := botWorking[RetryWorker(k) := true];
      if control == Stopped {
        retries := retries[k := retries[k].(stage := Abandoned)];
      } else {
        retries := retries[k := retries[k].(stage := Waiting(0))];
      }
    }

    method CheckAgain(k: nat, hit: bool)
      requires Enabled(room, View(), ByRetry(RetryCheck(k, hit)))
      modifies this
      ensures View() == Apply(room, old(View()), ByRetry(RetryCheck(k, hit)))
    {
      var task := retries[k];
      if hit {
        fetchQueue := fetchQueue + [Item(true, {task.id})];
        log := log.(fetchPuts := log.fetchPuts + 1);
      }
      if hit || task.stage.attempts + 1 == RETRY_LIMIT {
        retries := retries[k := task.(stage := RetryDone)];
        botWorking := botWorking[RetryWorker(k) := false];
      } else if control == Stopped {
        retries := retries[k := task.(stage := Abandoned)];
      } else {
        retries := retries[k := task.(stage := Waiting(task.stage.attempts + 1))];
      }
    }

    // ----- the status loop

    /** One pass of the status loop, up to its decision to finish. */
    method StatusPass()
      requires Enabled(room, View(), Outside(Tick))
      modifies this
      ensures View() == Apply(room, old(View()), Outside(Tick))
    {
      var finishOnThisRound := control == Stopped;
      if control == Paused {
        return;
      }
      if |fetchQueue| == 0 && |errorQueue| == 0 {
        if forall w :: w in botWorking ==> !botWorking[w] {
          retryForFinish := retryForFinish + 1;
          if retryForFinish > IDLE_LIMIT {
            finishOnThisRound := true;
          }
        } else {
          retryForFinish := 0;
        }
      }
      finished := finishOnThisRound;
    }

    /** One step of whichever party the schedule names. */
    method TakeTurn(step: Step)
      requires Enabled(room, View(), step)
      modifies this
      ensures View() == Apply(room, old(View()), step)
    {
      match step
      case ByFetcher(f) => FetchTurn(f);
      case ByRepair(r) => RepairTurn(r);
      case ByRetry(RetryStart(k)) => StartRetry(k);
      case ByRetry(RetryCheck(k, hit)) => CheckAgain(k, hit);
      case Outside(Serve(now)) => served := now;
      case Outside(Press(button)) => control := button;
      case Outside(Tick) => StatusPass();
    }
  }

  lemma NextTurn(room: Room, s: State, schedule: seq<Step>, i: nat)
    requires ValidRun(room, s, schedule) && i < |schedule|
    ensures ValidRun(room, s, schedule[..i]) && Enabled(room, End(room, s, schedule[..i]), schedule[i])
    ensures ValidRun(room, s, schedule[..i + 1])
    ensures End(room, s, schedule[..i + 1]) == Apply(room, End(room, s, schedule[..i]), schedule[i])
  {
    assert schedule[..i + 1] == schedule[..i] + [schedule[i]];
    assert schedule == schedule[..i] + schedule[i..];
    RunSplits(room, s, schedule[..i], schedule[i..]);
    RunSnoc(room, s, schedule[..i], schedule[i]);
  }

  /** The whole command under one interleaving of the coroutines and of what the world does, over the
      event ids in `all`. */
  method RunWalk(room: Room, served: set<EventId>, schedule: seq<Step>, ghost all: set<EventId>) returns (walk: Walk)
    requires ValidRun(room, Init(room, served), schedule)
    requires Universe(room, all) && RunWithin(schedule, all)
    ensures walk.room == room && walk.View() == End(room, Init(room, served), schedule)
    ensures WorkerSteps(schedule) <= 5 + |all| * (|all| + 32 + 4 * room.hosts)
    ensures walk.resolvedList <= walk.okList * walk.errorList
    ensures NoDup(walk.log.searches) && Elems(walk.log.searches) == walk.alreadyTried
    ensures room.start in served && LoyalRun(room, Init(room, served), schedule)
            && walk.fetchQueue == [] && !FetcherBusy(walk.fetcher) ==>
              && room.start in walk.okList
              && forall x, p :: x in walk.okList && p in Parents(room.event(x)) ==> p in walk.okList + walk.errorList
    ensures Unstopped(schedule) && walk.errorQueue == [] && !HasHunt(walk.repair) ==> walk.errorList <= walk.alreadyTried
    ensures Unstopped(schedule) && !walk.finished && OutOfMoves(room, walk.View()) ==>
              walk.fetchQueue == [] && walk.errorQueue == [] && forall w :: w in walk.botWorking ==> !walk.botWorking[w]
    ensures walk.okList <= Found(schedule) && walk.errorList <= ReportedMissing(schedule)
    ensures !FetcherBusy(walk.fetcher) ==> walk.okList == Found(schedule) && walk.errorList == ReportedMissing(schedule)
    ensures TaskIds(walk.retries) == Repaired(room, Init(room, served), schedule)
    ensures walk.resolvedList <= Hits(room, Init(room, served), schedule)
    ensures room.start in served && LoyalRun(room, Init(room, served), schedule)
            && Unstopped(schedule) && !walk.finished && OutOfMoves(room, walk.View()) ==>
              walk.resolvedList == Hits(room, Init(room, served), schedule) <= walk.okList
    ensures Unstopped(schedule) && !walk.finished && OutOfMoves(room, walk.View()) ==>
              forall k: nat :: k < |walk.retries| ==>
                walk.retries[k].stage == RetryDone && (WasHit(schedule, k) <==> Misses(schedule, k) < 10)
  {
    walk := new Walk(room, served);
    for i := 0 to |schedule|
      invariant fresh(walk) && walk.room == room
      invariant ValidRun(room, Init(room, served), schedule[..i])
      invariant walk.View() == End(room, Init(room, served), schedule[..i])
    {
      NextTurn(room, Init(room, served), schedule, i);
      walk.TakeTurn(schedule[i]);
    }
    assert schedule[..|schedule|] == schedule;
    WhatARunLeaves(room, served, schedule, all);
    WhatRetriesLeave(room, served, schedule);
    SetsAreRecords(room, served, schedule);
  }

  /** The same for the retry workers. */
  lemma WhatRetriesLeave(room: Room, served: set<EventId>, schedule: seq<Step>)
    requires ValidRun(room, Init(room, served), schedule)
    ensures var s := End(room, Init(room, served), schedule);
            && TaskIds(s.retries) == Repaired(room, Init(room, served), schedule)
            && s.resolved <= Hits(room, Init(room, served), schedule)
            && (room.start in served && LoyalRun(room, Init(room, served), schedule)
                && Unstopped(schedule) && !s.finished && OutOfMoves(room, s) ==>
                  s.resolved == Hits(room, Init(room, served), schedule) <= s.ok)
            && (Unstopped(schedule) && !s.finished && OutOfMoves(room, s) ==>
                  forall k: nat :: k < |s.retries| ==>
                    s.retries[k].stage == RetryDone && (WasHit(schedule, k) <==> Misses(schedule, k) < 10))
  {
    EveryRepairIsRetried(room, served, schedule);
    ResolvedAreHits(room, served, schedule);
    forall k: nat
      ensures var s := End(room, Init(room, served), schedule);
              && (k < |s.retries| && s.retries[k].stage == RetryDone ==> (WasHit(schedule, k) <==> Misses(schedule, k) < 10))
              && (k < |s.retries| && Unstopped(schedule) && !s.finished && OutOfMoves(room, s) ==>
                    s.retries[k].stage == RetryDone)
    {
      TenMissesGiveUp(room, served, schedule, k);
    }
  }

  /** The facts of the other modules about the end of a run. */
  lemma WhatARunLeaves(room: Room, served: set<EventId>, schedule: seq<Step>, all: set<EventId>)
    requires ValidRun(room, Init(room, served), schedule)
    requires Universe(room, all) && RunWithin(schedule, all)
    ensures WorkerSteps(schedule) <= 5 + |all| * (|all| + 32 + 4 * room.hosts)
    ensures var s := End(room, Init(room, served), schedule);
            && s.resolved <= s.ok * s.error
            && NoDup(s.log.searches) && Elems(s.log.searches) == s.tried
            && (room.start in served && LoyalRun(room, Init(room, served), schedule)
                && s.fetchQ == [] && !FetcherBusy(s.fetcher) ==>
                  && room.start in s.ok
                  && forall x, p :: x in s.ok && p in Parents(room.event(x)) ==> p in s.ok + s.error)
            && (Unstopped(schedule) && s.errorQ == [] && !HasHunt(s.repair) ==> s.error <= s.tried)
            && (Unstopped(schedule) && !s.finished && OutOfMoves(room, s) ==>
                  s.fetchQ == [] && s.errorQ == [] && AllIdle(s.working))
  {
    var s := End(room, Init(room, served), schedule);
    WalkTerminates(room, served, schedule, all);
    WalkSets(room, served, schedule);
    if room.start in served && LoyalRun(room, Init(room, served), schedule) && OutOfWork(s) {
      WalkIsClosed(room, served, schedule);
    }
    if Unstopped(schedule) {
      MissingAreSearchedOnce(room, served, schedule);
      NoMovesMeansNoWork(room, served, schedule);
    }
  }
}
