/** What the two id sets of a walk record: what the target had, and what it reported missing. */
module RoomWalkRecords {
  import opened Collections
  import opened RoomWalk
  import opened RoomWalkSafety

  /** The ids for which the target gave the fetcher an event. */
  ghost function Found(steps: seq<Step>): set<EventId> {
    if steps == [] then {} else FoundBy(steps[0]) + Found(steps[1..])
  }

  ghost function FoundBy(step: Step): set<EventId> {
    match step
    case ByFetcher(FetchReply(found)) => found
    case _ => {}
  }

  /** The ancestors that the target told the fetcher it lacks. */
  ghost function ReportedMissing(steps: seq<Step>): set<EventId> {
    if steps == [] then {} else ReportedBy(steps[0]) + ReportedMissing(steps[1..])
  }

  ghost function ReportedBy(step: Step): set<EventId> {
    match step
    case ByFetcher(FetchPrev(bad)) => Elems(bad)
    case ByFetcher(FetchAuth(bad)) => Elems(bad)
    case _ => {}
  }

  /** Found ids the fetcher has still to turn to. */
  function Unpicked(f: Fetcher): set<EventId> {
    match f
    case Walking(round) => round.todo * round.found
    case AwaitPrev(round, _, _) => round.todo * round.found
    case AwaitAuth(round, _, _, _, _) => round.todo * round.found
    case _ => {}
  }

  /** Reported ids the fetcher has still to record. */
  function Unrecorded(f: Fetcher): set<EventId> {
    match f
    case AwaitAuth(_, _, _, bad, _) => Elems(bad)
    case _ => {}
  }

  lemma RecordsFetch(room: Room, s: State, step: FetchStep)
    requires FetchEnabled(room, s, step)
    ensures var t := ApplyFetch(room, s, step);
            && t.ok + Unpicked(t.fetcher) == s.ok + Unpicked(s.fetcher) + FoundBy(ByFetcher(step))
            && t.error + Unrecorded(t.fetcher) == s.error + Unrecorded(s.fetcher) + ReportedBy(ByFetcher(step))
  {
    match step
    case FetchAuth(bad) => ElemsOfConcat(s.fetcher.prevBad, bad);
    case _ =>
  }

  lemma RecordsStep(room: Room, s: State, step: Step)
    requires Enabled(room, s, step)
    ensures var t := Apply(room, s, step);
            && t.ok + Unpicked(t.fetcher) == s.ok + Unpicked(s.fetcher) + FoundBy(step)
            && t.error + Unrecorded(t.fetcher) == s.error + Unrecorded(s.fetcher) + ReportedBy(step)
  {
    match step
    case ByFetcher(f) => RecordsFetch(room, s, f);
    case ByRepair(r) =>
    case ByRetry(t) =>
    case Outside(o) =>
  }

  lemma {:induction false} RecordsOverRun(room: Room, s: State, steps: seq<Step>)
    requires ValidRun(room, s, steps)
    ensures var t := End(room, s, steps);
            && t.ok + Unpicked(t.fetcher) == s.ok + Unpicked(s.fetcher) + Found(steps)
            && t.error + Unrecorded(t.fetcher) == s.error + Unrecorded(s.fetcher) + ReportedMissing(steps)
    decreases |steps|
  {
    if steps != [] {
      RecordsStep(room, s, steps[0]);
      RecordsOverRun(room, Apply(room, s, steps[0]), steps[1..]);
    }
  }

  /** Only ids the target had are ever OK, and only ids it reported are ever missing; between two batches
      these are all of them. */
  lemma SetsAreRecords(room: Room, served: set<EventId>, steps: seq<Step>)
    requires ValidRun(room, Init(room, served), steps)
    ensures var s := End(room, Init(room, served), steps);
            && s.ok <= Found(steps) && s.error <= ReportedMissing(steps)
            && (!FetcherBusy(s.fetcher) ==> s.ok == Found(steps) && s.error == ReportedMissing(steps))
  {
    RecordsOverRun(room, Init(room, served), steps);
  }

  lemma {:induction false} FreshConcat<T>(a: seq<T>, b: seq<T>, seen: set<T>)
    ensures Fresh(a + b, seen) == Fresh(a, seen) + Fresh(b, seen + Elems(a))
  {
    if a == [] {
      assert a + b == b && seen + Elems(a) == seen;
    } else {
      assert (a + b)[1..] == a[1..] + b;
      assert Elems(a) == {a[0]} + Elems(a[1..]);
      if a[0] in seen {
        FreshConcat(a[1..], b, seen);
        assert seen + Elems(a[1..]) == seen + Elems(a);
      } else {
        FreshConcat(a[1..], b, seen + {a[0]});
        assert seen + {a[0]} + Elems(a[1..]) == seen + Elems(a);
      }
    }
  }

  /** The fetcher queues missing prev events before missing auth events. */
  lemma FetcherQueuesPrevFirst(room: Room, s: State, bad: seq<EventId>)
    requires s.fetcher.AwaitAuth?
    ensures var prevBad := s.fetcher.prevBad;
            DoFetchAuth(room, s, bad).errorQ ==
              s.errorQ + (Fresh(prevBad, s.error) + Fresh(bad, s.error + Elems(prevBad)))
  {
    FreshConcat(s.fetcher.prevBad, bad, s.error);
  }

  /** So does a hunt. */
  lemma HuntQueuesPrevFirst(s: State, bad: seq<EventId>)
    requires s.repair.ScanAuth?
    ensures var h, prevBad := s.repair.hunt, s.repair.prevBad;
            DoRepairAuth(s, bad).repair.hunt.queue ==
              h.queue + (Fresh(prevBad, h.searching) + Fresh(bad, h.searching + Elems(prevBad)))
  {
    FreshConcat(s.repair.prevBad, bad, s.repair.hunt.searching);
  }

  /** Events are sent in their order, fifty at a time, and a last batch of what is left. */
  lemma SentByFifties(room: Room, s: State)
    requires RepairEnabled(room, s, RepairSend)
    ensures var t := ApplyRepair(room, s, RepairSend);
            && t.repair.Sending? && t.repair.out + t.repair.rest == s.repair.out + s.repair.rest
            && |t.repair.out| - |s.repair.out| == if |s.repair.rest| >= 50 then 50 else |s.repair.rest|
  {
  }
}
