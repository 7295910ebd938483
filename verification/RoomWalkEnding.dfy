/** How a walk ends: what the status loop does once no worker can move. */
module RoomWalkEnding {
  import opened Collections
  import opened RoomWalk
  import opened RoomWalkSafety
  import opened RoomWalkTermination

  // ----- when the workers cannot move

  ghost predicate OutOfMoves(room: Room, s: State) {
    forall step: Step :: !step.Outside? ==> !Enabled(room, s, step)
  }

  /** A step the fetcher can take, whatever the target answers, if it can take one. */
  ghost function FetchMove(s: State): Option<FetchStep> {
    match s.fetcher
    case FetchIdle => if s.fetchQ != [] then Some(FetchGet) else if s.control == Stopped then Some(FetchQuit) else None
    case FetchEnded => None
    case Fetching(_, _, _) => Some(FetchReply({}))
    case Walking(round) =>
      if round.todo == {} then Some(FetchFinish)
      else
        var cur :| cur in round.todo;
        Some(FetchPick(cur))
    case AwaitPrev(_, _, _) => Some(FetchPrev([]))
    case AwaitAuth(_, _, _, _, _) => Some(FetchAuth([]))
  }

  ghost function RepairMove(room: Room, s: State): Option<RepairStep> {
    match s.repair
    case RepairIdle => if s.errorQ != [] then Some(RepairGet) else if s.control == Stopped then Some(RepairQuit) else None
    case RepairEnded => None
    case Hunting(_) => Some(RepairPop)
    case Finding(_, _) => Some(RepairFound(seq(room.hosts, _ => None)))
    case Scanning(_, _, _) => Some(RepairScan)
    case ScanPrev(_, _, _, _) => Some(RepairPrev([]))
    case ScanAuth(_, _, _, _, _) => Some(RepairAuth([]))
    case Sending(_, rest, _) => Some(if rest == [] then RepairFinish else RepairSend)
  }

  ghost predicate RetryAtRest(s: State) {
    forall k: nat :: k < |s.retries| ==> s.retries[k].stage == RetryDone || s.retries[k].stage == Abandoned
  }

  lemma FetchMoves(room: Room, s: State)
    ensures FetchMove(s).Some? ==> FetchEnabled(room, s, FetchMove(s).value)
    ensures FetchMove(s).None? ==> !FetcherBusy(s.fetcher)
  {
  }

  lemma RepairMoves(room: Room, s: State)
    ensures RepairMove(room, s).Some? ==> RepairEnabled(room, s, RepairMove(room, s).value)
    ensures RepairMove(room, s).None? ==> !HasHunt(s.repair)
  {
  }

  lemma RetryMoves(s: State) returns (step: Option<RetryStep>)
    ensures step.Some? ==> RetryEnabled(s, step.value)
    ensures step.None? ==> RetryAtRest(s)
  {
    if k: nat :| k < |s.retries| && s.retries[k].stage == Created {
      step := Some(RetryStart(k));
    } else if k: nat :| k < |s.retries| && s.retries[k].stage.Waiting? {
      step := Some(RetryCheck(k, true));
    } else {
      step := None;
    }
  }

  /** Some worker can move, or everything is at rest. */
  lemma MoveOrRest(room: Room, s: State, all: set<EventId>) returns (step: Option<Step>)
    requires !s.finished
    ensures step.Some? ==> Enabled(room, s, step.value) && !step.value.Outside? && StepWithin(step.value, all)
    ensures step.None? ==> FetchMove(s).None? && RepairMove(room, s).None? && RetryAtRest(s)
  {
    FetchMoves(room, s);
    RepairMoves(room, s);
    var retry := RetryMoves(s);
    if FetchMove(s).Some? {
      step := Some(ByFetcher(FetchMove(s).value));
    } else if RepairMove(room, s).Some? {
      step := Some(ByRepair(RepairMove(room, s).value));
    } else if retry.Some? {
      step := Some(ByRetry(retry.value));
    } else {
      step := None;
    }
  }

  /** At rest the fetcher and the repair worker hold nothing, and wait on an empty queue or have quit. */
  ghost predicate AtRest(s: State) {
    && (s.fetcher == FetchEnded || (s.fetcher == FetchIdle && s.fetchQ == [] && s.control != Stopped))
    && (s.repair == RepairEnded || (s.repair == RepairIdle && s.errorQ == [] && s.control != Stopped))
    && RetryAtRest(s)
  }

  lemma RestHasNoMoves(room: Room, s: State)
    requires AtRest(s)
    ensures OutOfMoves(room, s)
  {
    forall step: Step | !step.Outside?
      ensures !Enabled(room, s, step)
    {
      match step
      case ByFetcher(f) =>
      case ByRepair(r) =>
      case ByRetry(t) =>
    }
  }

  lemma OutOfMovesIsRest(room: Room, s: State)
    requires !s.finished
    ensures OutOfMoves(room, s) <==> AtRest(s)
  {
    var step := MoveOrRest(room, s, {});
    if AtRest(s) {
      RestHasNoMoves(room, s);
    }
  }

  // ----- when nobody stops the walk

  ghost predicate Unstopped(steps: seq<Step>) {
    forall i :: 0 <= i < |steps| ==> steps[i] != Outside(Press(Stopped))
  }

  /** No coroutine has left its loop because of the stop button. */
  ghost predicate NobodyQuit(s: State) {
    && s.control != Stopped && s.fetcher != FetchEnded && s.repair != RepairEnded
    && (forall k: nat :: k < |s.retries| ==> s.retries[k].stage != Abandoned)
  }

  lemma NobodyQuitStep(room: Room, s: State, step: Step)
    requires Enabled(room, s, step) && step != Outside(Press(Stopped)) && NobodyQuit(s)
    ensures NobodyQuit(Apply(room, s, step))
  {
    match step
    case ByFetcher(f) =>
    case ByRepair(r) => NobodyQuitRepair(room, s, r);
    case ByRetry(t) =>
    case Outside(o) =>
  }

  lemma NobodyQuitRepair(room: Room, s: State, step: RepairStep)
    requires RepairEnabled(room, s, step) && NobodyQuit(s)
    ensures NobodyQuit(ApplyRepair(room, s, step))
  {
  }

  lemma {:induction false} NobodyQuitOverRun(room: Room, s: State, steps: seq<Step>)
    requires ValidRun(room, s, steps) && Unstopped(steps) && NobodyQuit(s)
    ensures NobodyQuit(End(room, s, steps))
    decreases |steps|
  {
    if steps != [] {
      NobodyQuitStep(room, s, steps[0]);
      NobodyQuitOverRun(room, Apply(room, s, steps[0]), steps[1..]);
    }
  }

  /** At rest the flags are down unless a retry worker saw the stop button. */
  lemma FlagsAtRest(s: State)
    requires FlagsInv(s) && AtRest(s)
    ensures AllIdle(s.working) <==> forall k: nat :: k < |s.retries| ==> s.retries[k].stage != Abandoned
  {
    if forall k: nat :: k < |s.retries| ==> s.retries[k].stage != Abandoned {
      forall w | w in s.working
        ensures !s.working[w]
      {
        match w
        case FetchWorker =>
        case RepairWorker =>
        case RetryWorker(k) =>
      }
    } else {
      var k: nat :| k < |s.retries| && s.retries[k].stage == Abandoned;
      assert RetryWorker(k) in s.working && s.working[RetryWorker(k)];
    }
  }

  /** If nobody pressed stop, then when no worker can move there is no work left and no flag is up. */
  lemma NoMovesMeansNoWork(room: Room, served: set<EventId>, steps: seq<Step>)
    requires ValidRun(room, Init(room, served), steps) && Unstopped(steps)
    ensures var s := End(room, Init(room, served), steps);
            !s.finished && OutOfMoves(room, s) ==> s.fetchQ == [] && s.errorQ == [] && AllIdle(s.working)
  {
    var s := End(room, Init(room, served), steps);
    SafetyOverRun(room, Init(room, served), steps);
    NobodyQuitOverRun(room, Init(room, served), steps);
    if !s.finished && OutOfMoves(room, s) {
      OutOfMovesIsRest(room, s);
      FlagsAtRest(s);
    }
  }

  // ----- the last passes of the status loop

  /** How many passes of the status loop in a run were not skipped by a pause. */
  ghost function Passes(room: Room, s: State, steps: seq<Step>): nat
    requires ValidRun(room, s, steps)
    decreases |steps|
  {
    if steps == [] then 0
    else (if steps[0] == Outside(Tick) && s.control != Paused then 1 else 0)
         + Passes(room, Apply(room, s, steps[0]), steps[1..])
  }

  ghost predicate Counting(s: State) {
    !s.finished ==> s.idleCount <= IDLE_LIMIT
  }

  lemma {:induction false} CountingOverRun(room: Room, s: State, steps: seq<Step>)
    requires ValidRun(room, s, steps) && Counting(s)
    ensures Counting(End(room, s, steps))
    decreases |steps|
  {
    if steps != [] {
      CountingStep(room, s, steps[0]);
      CountingOverRun(room, Apply(room, s, steps[0]), steps[1..]);
    }
  }

  lemma CountingStep(room: Room, s: State, step: Step)
    requires Enabled(room, s, step) && Counting(s)
    ensures Counting(Apply(room, s, step))
  {
  }

  /** Nothing is left to do and nobody stopped the walk. */
  ghost predicate Done(s: State) {
    AtRest(s) && s.control != Stopped && s.fetchQ == [] && s.errorQ == [] && AllIdle(s.working)
  }

  lemma DoneStep(room: Room, s: State, step: Step)
    requires Enabled(room, s, step) && Done(s) && step != Outside(Press(Stopped))
    ensures var t := Apply(room, s, step);
            && step.Outside? && Done(t)
            && t.idleCount == s.idleCount + (if step == Outside(Tick) && s.control != Paused then 1 else 0)
            && (t.finished <==> step == Outside(Tick) && s.control != Paused && t.idleCount > IDLE_LIMIT)
  {
    RestHasNoMoves(room, s);
  }

  /** From there on every run counts its passes and ends with the pass that exceeds the limit. */
  lemma {:induction false} LastPasses(room: Room, s: State, steps: seq<Step>)
    requires ValidRun(room, s, steps) && Unstopped(steps)
    requires Done(s) && !s.finished && s.idleCount <= IDLE_LIMIT
    ensures WorkerSteps(steps) == 0
    ensures s.idleCount + Passes(room, s, steps) <= IDLE_LIMIT + 1
    ensures End(room, s, steps).finished <==> s.idleCount + Passes(room, s, steps) == IDLE_LIMIT + 1
    decreases |steps|
  {
    if steps != [] {
      var t := Apply(room, s, steps[0]);
      DoneStep(room, s, steps[0]);
      if !t.finished {
        LastPasses(room, t, steps[1..]);
      }
    }
  }

  /** If nobody presses stop and the workers have come to a state where none can move, then none ever
      moves again, and the walk ends with the pass that brings the count of idle passes over the limit:
      the sixth unpaused one at the latest. */
  lemma WalkEndsInTime(room: Room, served: set<EventId>, work: seq<Step>, rest: seq<Step>)
    requires ValidRun(room, Init(room, served), work) && Unstopped(work + rest)
    requires var s := End(room, Init(room, served), work);
             !s.finished && OutOfMoves(room, s) && ValidRun(room, s, rest)
    ensures var s := End(room, Init(room, served), work);
            && WorkerSteps(rest) == 0
            && Passes(room, s, rest) <= IDLE_LIMIT + 1
            && (End(room, s, rest).finished <==> s.idleCount + Passes(room, s, rest) == IDLE_LIMIT + 1)
  {
    var s := End(room, Init(room, served), work);
    forall i | 0 <= i < |work| ensures work[i] != Outside(Press(Stopped)) {
      assert (work + rest)[i] == work[i];
    }
    forall i | 0 <= i < |rest| ensures rest[i] != Outside(Press(Stopped)) {
      assert (work + rest)[|work| + i] == rest[i];
    }
    OutOfMovesIsDone(room, served, work);
    LastPasses(room, s, rest);
  }

  lemma OutOfMovesIsDone(room: Room, served: set<EventId>, work: seq<Step>)
    requires ValidRun(room, Init(room, served), work) && Unstopped(work)
    requires var s := End(room, Init(room, served), work); !s.finished && OutOfMoves(room, s)
    ensures var s := End(room, Init(room, served), work); Done(s) && s.idleCount <= IDLE_LIMIT
  {
    var s := End(room, Init(room, served), work);
    NoMovesMeansNoWork(room, served, work);
    NobodyQuitOverRun(room, Init(room, served), work);
    CountingOverRun(room, Init(room, served), work);
    OutOfMovesIsRest(room, s);
  }

  // ----- what an end for want of work has seen

  /** A pass of the status loop that is not skipped and finds both queues empty. */
  ghost predicate SeesNoWork(s: State, step: Step) {
    step == Outside(Tick) && s.control != Paused && s.fetchQ == [] && s.errorQ == []
  }

  /** No such pass found a flag up. */
  ghost predicate NeverBusy(room: Room, s: State, steps: seq<Step>)
    requires ValidRun(room, s, steps)
    decreases |steps|
  {
    steps == [] ||
    ((SeesNoWork(s, steps[0]) ==> AllIdle(s.working)) && NeverBusy(room, Apply(room, s, steps[0]), steps[1..]))
  }

  /** How many of them found all flags down. */
  ghost function IdlePasses(room: Room, s: State, steps: seq<Step>): nat
    requires ValidRun(room, s, steps)
    decreases |steps|
  {
    if steps == [] then 0
    else (if SeesNoWork(s, steps[0]) && AllIdle(s.working) then 1 else 0)
         + IdlePasses(room, Apply(room, s, steps[0]), steps[1..])
  }

  lemma IdleStep(room: Room, s: State, step: Step)
    requires Enabled(room, s, step)
    ensures Apply(room, s, step).idleCount ==
            if !SeesNoWork(s, step) then s.idleCount else if AllIdle(s.working) then s.idleCount + 1 else 0
  {
  }

  /** The idle count is the number of idle passes since the last pass that found a flag up. */
  lemma {:induction false} IdleCountIs(room: Room, s: State, steps: seq<Step>) returns (a: seq<Step>, b: seq<Step>)
    requires ValidRun(room, s, steps)
    ensures steps == a + b && ValidRun(room, s, a) && ValidRun(room, End(room, s, a), b)
    ensures NeverBusy(room, End(room, s, a), b)
    ensures End(room, s, steps).idleCount ==
            (if a == [] then s.idleCount else 0) + IdlePasses(room, End(room, s, a), b)
    decreases |steps|
  {
    if steps == [] {
      return [], [];
    }
    var t := Apply(room, s, steps[0]);
    a, b := IdleCountIs(room, t, steps[1..]);
    IdleStep(room, s, steps[0]);
    if a == [] && (SeesNoWork(s, steps[0]) ==> AllIdle(s.working)) {
      assert b == steps[1..];
      b := steps;
    } else {
      a := [steps[0]] + a;
      assert a[1..] + b == steps[1..];
    }
  }

  /** A walk that nobody stopped and that has ended saw, at the end, six passes with empty queues and all
      flags down, and since before the first of them none with empty queues and a flag up. */
  lemma EndedAfterSixIdlePasses(room: Room, served: set<EventId>, steps: seq<Step>) returns (a: seq<Step>, b: seq<Step>)
    requires ValidRun(room, Init(room, served), steps) && Unstopped(steps)
    requires End(room, Init(room, served), steps).finished
    ensures steps == a + b && ValidRun(room, Init(room, served), a)
    ensures var s := End(room, Init(room, served), a);
            ValidRun(room, s, b) && NeverBusy(room, s, b) && IdlePasses(room, s, b) == 6
  {
    a, b := IdleCountIs(room, Init(room, served), steps);
    FinishedIsSix(room, Init(room, served), steps);
  }

  lemma {:induction false} FinishedIsSix(room: Room, s: State, steps: seq<Step>)
    requires ValidRun(room, s, steps) && Unstopped(steps) && s.control != Stopped
    requires if s.finished then s.idleCount == 6 else s.idleCount <= 5
    ensures End(room, s, steps).finished ==> End(room, s, steps).idleCount == 6
    decreases |steps|
  {
    if steps != [] {
      var t := Apply(room, s, steps[0]);
      assert t.control != Stopped && if t.finished then t.idleCount == 6 else t.idleCount <= 5 by {
        match steps[0]
        case ByFetcher(f) =>
        case ByRepair(r) =>
        case ByRetry(k) =>
        case Outside(o) =>
      }
      FinishedIsSix(room, t, steps[1..]);
    }
  }

  // ----- a walk nobody stops can always be brought to its end

  /** Letting the workers move while they can leads to a state where none can. */
  lemma {:induction false} Drain(room: Room, s: State, all: set<EventId>) returns (steps: seq<Step>)
    requires Universe(room, all) && Within(room, s, all) && !s.finished
    ensures ValidRun(room, s, steps) && Unstopped(steps)
    ensures WorkerSteps(steps) == |steps| <= StepsLeft(room, s, |all|)
    ensures var t := End(room, s, steps); !t.finished && OutOfMoves(room, t)
    decreases StepsLeft(room, s, |all|)
  {
    StepsLeftIsNatural(room, s, all);
    var step := MoveOrRest(room, s, all);
    if step.None? {
      OutOfMovesIsRest(room, s);
      steps := [];
    } else {
      var t := Apply(room, s, step.value);
      StepsLeftFalls(room, s, step.value, all);
      WithinStep(room, s, step.value, all);
      WorkersDoNotFinish(room, s, step.value);
      StepsLeftIsNatural(room, t, all);
      var more := Drain(room, t, all);
      steps := [step.value] + more;
      assert steps[0] == step.value && steps[1..] == more;
    }
  }

  lemma WorkersDoNotFinish(room: Room, s: State, step: Step)
    requires Enabled(room, s, step) && !step.Outside?
    ensures !Apply(room, s, step).finished
  {
  }

  function Ticks(n: nat): seq<Step> {
    seq(n, _ => Outside(Tick))
  }

  lemma {:induction false} TicksFinish(room: Room, s: State)
    requires Done(s) && s.control == Running && !s.finished && s.idleCount <= IDLE_LIMIT
    ensures ValidRun(room, s, Ticks(IDLE_LIMIT + 1 - s.idleCount))
    ensures End(room, s, Ticks(IDLE_LIMIT + 1 - s.idleCount)).finished
    decreases IDLE_LIMIT - s.idleCount
  {
    var n := IDLE_LIMIT + 1 - s.idleCount;
    var t := Apply(room, s, Outside(Tick));
    DoneStep(room, s, Outside(Tick));
    assert Ticks(n)[0] == Outside(Tick) && Ticks(n)[1..] == Ticks(n - 1);
    if n > 1 {
      TicksFinish(room, t);
    }
  }

  /** At any point of a walk that nobody stopped, the workers can come to rest within their budget, and
      then the walk ends after a start and at most six passes. */
  lemma WalkCanEnd(room: Room, served: set<EventId>, steps: seq<Step>, all: set<EventId>)
    returns (work: seq<Step>, n: nat)
    requires Universe(room, all) && RunWithin(steps, all)
    requires ValidRun(room, Init(room, served), steps) && Unstopped(steps)
    requires !End(room, Init(room, served), steps).finished
    ensures var s := End(room, Init(room, served), steps);
            && n <= IDLE_LIMIT + 1
            && WorkerSteps(work) == |work| <= StepsLeft(room, s, |all|)
            && ValidRun(room, s, work + ([Outside(Press(Running))] + Ticks(n)))
            && End(room, s, work + ([Outside(Press(Running))] + Ticks(n))).finished
  {
    var s := End(room, Init(room, served), steps);
    StepsOverRun(room, Init(room, served), steps, all);
    work := Drain(room, s, all);
    RunJoins(room, Init(room, served), steps, work);
    OutOfMovesIsDone(room, served, steps + work);
    var rest := End(room, s, work);
    var t := rest.(control := Running);
    n := IDLE_LIMIT + 1 - t.idleCount;
    TicksFinish(room, t);
    OneStep(room, rest, Outside(Press(Running)));
    RunJoins(room, rest, [Outside(Press(Running))], Ticks(n));
    RunJoins(room, s, work, [Outside(Press(Running))] + Ticks(n));
  }

  // ----- a walk that was stopped and started again

  ghost predicate CanTickToTheEnd(room: Room, s: State) {
    exists n: nat :: ValidRun(room, s, Ticks(n)) && End(room, s, Ticks(n)).finished
  }

  /** The status loop sees work, or a flag, that nobody will ever take care of. */
  ghost predicate Hung(s: State) {
    !s.finished && s.control == Running && (s.fetchQ != [] || s.errorQ != [] || !AllIdle(s.working))
  }

  lemma {:induction false} HungForEver(room: Room, s: State, n: nat)
    requires Hung(s)
    ensures ValidRun(room, s, Ticks(n)) && Hung(End(room, s, Ticks(n)))
    decreases n
  {
    if n > 0 {
      assert Ticks(n)[0] == Outside(Tick) && Ticks(n)[1..] == Ticks(n - 1);
      HungForEver(room, Apply(room, s, Outside(Tick)), n - 1);
    }
  }

  /** Whatever was pressed before: when no worker can move and the walk is running, its status loop ends
      exactly when both queues are empty and no retry worker was abandoned by a stop. */
  lemma TicksFinishIff(room: Room, served: set<EventId>, steps: seq<Step>)
    requires ValidRun(room, Init(room, served), steps)
    requires var s := End(room, Init(room, served), steps);
             !s.finished && s.control == Running && OutOfMoves(room, s)
    ensures var s := End(room, Init(room, served), steps);
            CanTickToTheEnd(room, s) <==>
              s.fetchQ == [] && s.errorQ == [] && forall k: nat :: k < |s.retries| ==> s.retries[k].stage != Abandoned
  {
    var s := End(room, Init(room, served), steps);
    SafetyOverRun(room, Init(room, served), steps);
    CountingOverRun(room, Init(room, served), steps);
    OutOfMovesIsRest(room, s);
    FlagsAtRest(s);
    if Hung(s) {
      forall n: nat
        ensures ValidRun(room, s, Ticks(n)) && !End(room, s, Ticks(n)).finished
      {
        HungForEver(room, s, n);
      }
    } else {
      TicksFinish(room, s);
    }
  }

  /** A stop and a start while the fetcher waits: it quits, is never started again, and the status loop
      goes round for ever over a queue that nobody reads, until somebody presses stop again. */
  lemma StopAndStartHangs(room: Room, served: set<EventId>)
    ensures var steps := [Outside(Press(Stopped)), ByFetcher(FetchQuit), Outside(Press(Running))];
            && ValidRun(room, Init(room, served), steps)
            && var s := End(room, Init(room, served), steps);
               && OutOfMoves(room, s) && !s.finished && s.control == Running && s.fetchQ != []
               && DoTick(s) == s && !CanTickToTheEnd(room, s)
               && DoTick(s.(control := Stopped)).finished
  {
    var s0 := Init(room, served);
    var s1 := Apply(room, s0, Outside(Press(Stopped)));
    var s2 := Apply(room, s1, ByFetcher(FetchQuit));
    var s3 := Apply(room, s2, Outside(Press(Running)));
    var steps := [Outside(Press(Stopped)), ByFetcher(FetchQuit), Outside(Press(Running))];
    OneStep(room, s0, steps[0]);
    RunSnoc(room, s0, [steps[0]], steps[1]);
    RunSnoc(room, s0, [steps[0]] + [steps[1]], steps[2]);
    assert [steps[0]] + [steps[1]] + [steps[2]] == steps;
    RestHasNoMoves(room, s3);
    TicksFinishIff(room, served, steps);
  }
}
