/** A level edge can go out either way: one gap, the same answers, and only the order in which the
    target's report of missing events is iterated decides whether parents are sent first. */
module RepairDiamond {
  import opened Collections
  import opened RoomWalk
  import opened RepairOrder
  import opened RepairLayers

  // ----- the diamond

  /** The lost event `r` names `a` and `b`, and `b` names `a`. */
  function DiamondEvent(id: EventId): Event {
    var prev := if id == "s" then ["r"] else if id == "r" then ["a", "b"] else if id == "b" then ["a"] else [];
    Event(prev, [], map["donor" := Success])
  }

  function DiamondGap(): Gap {
    Gap(map["r" := DiamondEvent("r"), "a" := DiamondEvent("a"), "b" := DiamondEvent("b")], "r")
  }

  /** One donor server has everything; the walk starts at `s`, which names `r`. */
  function DiamondRoom(): Room {
    Room("s", DiamondEvent, 1)
  }

  // ----- runs over the gap, a step at a time

  /** The target's report on a scanned event names everything that event names. */
  ghost predicate WholeReport(s: State, step: Step) {
    match step
    case ByRepair(RepairPrev(bad)) => s.repair.ScanPrev? ==> Elems(bad) == Elems(s.repair.hit.prev)
    case ByRepair(RepairAuth(bad)) => s.repair.ScanAuth? ==> Elems(bad) == Elems(s.repair.hit.auth)
    case _ => true
  }

  ghost predicate WholeReports(room: Room, s: State, steps: seq<Step>)
    requires ValidRun(room, s, steps)
    decreases |steps|
  {
    steps == [] || (WholeReport(s, steps[0]) && WholeReports(room, Apply(room, s, steps[0]), steps[1..]))
  }

  /** A steady run over the diamond's gap whose reports leave out nothing. */
  ghost predicate OverDiamond(s: State, steps: seq<Step>) {
    && ValidRun(DiamondRoom(), s, steps)
    && SteadyRun(DiamondRoom(), DiamondGap(), s, steps)
    && WholeReports(DiamondRoom(), s, steps)
  }

  ghost predicate Leads(s: State, t: State) {
    exists steps :: OverDiamond(s, steps) && End(DiamondRoom(), s, steps) == t
  }

  lemma {:induction false} OverDiamondSnoc(s: State, steps: seq<Step>, step: Step)
    requires OverDiamond(s, steps)
    requires var t := End(DiamondRoom(), s, steps);
             Enabled(DiamondRoom(), t, step) && Steady(DiamondGap(), t, step) && WholeReport(t, step)
    ensures OverDiamond(s, steps + [step])
    ensures End(DiamondRoom(), s, steps + [step]) == Apply(DiamondRoom(), End(DiamondRoom(), s, steps), step)
    decreases |steps|
  {
    var longer := steps + [step];
    if steps == [] {
      assert longer == [step] && longer[1..] == [];
    } else {
      assert longer[0] == steps[0] && longer[1..] == steps[1..] + [step];
      OverDiamondSnoc(Apply(DiamondRoom(), s, steps[0]), steps[1..], step);
    }
  }

  lemma ThenRepair(s: State, t: State, step: RepairStep) returns (u: State)
    requires Leads(s, t) && !t.finished && RepairEnabled(DiamondRoom(), t, step)
    requires Steady(DiamondGap(), t, ByRepair(step)) && WholeReport(t, ByRepair(step))
    ensures Leads(s, u) && u == ApplyRepair(DiamondRoom(), t, step)
  {
    var steps :| OverDiamond(s, steps) && End(DiamondRoom(), s, steps) == t;
    OverDiamondSnoc(s, steps, ByRepair(step));
    u := ApplyRepair(DiamondRoom(), t, step);
  }

  lemma Then(s: State, t: State, step: Step) returns (u: State)
    requires Reaches(DiamondRoom(), s, t) && Enabled(DiamondRoom(), t, step)
    ensures Reaches(DiamondRoom(), s, u) && u == Apply(DiamondRoom(), t, step)
  {
    var steps :| ValidRun(DiamondRoom(), s, steps) && End(DiamondRoom(), s, steps) == t;
    RunSnoc(DiamondRoom(), s, steps, step);
    u := Apply(DiamondRoom(), t, step);
  }

  lemma NoSteps(s: State)
    ensures Leads(s, s)
  {
    assert OverDiamond(s, []) && End(DiamondRoom(), s, []) == s;
  }

  // ----- a hunt around the diamond

  ghost predicate OnHunt(t: State, h: Hunt, tried: set<EventId>) {
    t.repair == Hunting(h) && t.tried == tried && t.control == Running && !t.finished
  }

  /** The walk comes to a hunt for `r`. */
  lemma HuntDiamond() returns (t: State)
    ensures Reaches(DiamondRoom(), Init(DiamondRoom(), {"s"}), t) && OnHunt(t, Hunt("r", ["r"], {}, []), {})
  {
    var s := Init(DiamondRoom(), {"s"});
    assert ValidRun(DiamondRoom(), s, []) && End(DiamondRoom(), s, []) == s;
    assert Unseen(s.fetchQ[0], s.attempted) == {"s"};
    t := Then(s, s, ByFetcher(FetchGet));
    t := Then(s, t, ByFetcher(FetchReply({"s"})));
    t := Then(s, t, ByFetcher(FetchPick("s")));
    assert t.fetcher.AwaitPrev? && t.fetcher.cur == "s" && t.error == {} && t.errorQ == [];
    t := Then(s, t, ByFetcher(FetchPrev(["r"])));
    t := Then(s, t, ByFetcher(FetchAuth([])));
    assert ["r"] + [] == ["r"] && Fresh(["r"], {}) == ["r"];
    assert t.errorQ == ["r"];
    t := Then(s, t, ByRepair(RepairGet));
  }

  /** The search for one lost event, whose missing ancestors are reported in the order `report`. */
  lemma SearchOne(s: State, t: State, h: Hunt, tried: set<EventId>, report: seq<EventId>) returns (u: State)
    requires Leads(s, t) && OnHunt(t, h, tried)
    requires h.queue != [] && h.queue[0] in ["r", "a", "b"] && h.queue[0] !in tried
    requires Elems(report) == Elems(DiamondEvent(h.queue[0]).prev)
    ensures Leads(s, u)
    ensures var cur := h.queue[0];
            OnHunt(u, Hunt(h.root, h.queue[1..] + Fresh(report, h.searching), h.searching + Elems(report),
                           h.collected + [Pdu(cur, DiamondEvent(cur))]), tried + {cur})
  {
    var cur, e := h.queue[0], DiamondEvent(h.queue[0]);
    u := ThenRepair(s, t, RepairPop);
    var answers := [Some(e)];
    assert "donor" in e.verified;
    assert Usable(answers[1..]) == [] && Usable(answers) == [e] + [];
    assert DiamondGap().lost[cur] == e;
    u := ThenRepair(s, u, RepairFound(answers));
    u := ThenRepair(s, u, RepairScan);
    u := ScanOne(s, u, h.(queue := h.queue[1..]), tried + {cur}, cur, report);
  }

  /** The hit on a lost event, from the target's reports to the next turn of the hunt. */
  lemma ScanOne(s: State, t: State, h: Hunt, tried: set<EventId>, cur: EventId, report: seq<EventId>) returns (u: State)
    requires Leads(s, t) && t.tried == tried && t.control == Running && !t.finished
    requires t.repair == ScanPrev(h.(collected := h.collected + [P(cur)]), cur, [], DiamondEvent(cur))
    requires Elems(report) == Elems(DiamondEvent(cur).prev)
    ensures Leads(s, u)
    ensures OnHunt(u, Hunt(h.root, h.queue + Fresh(report, h.searching), h.searching + Elems(report),
                           h.collected + [P(cur)]), tried)
  {
    forall p | p in DiamondEvent(cur).prev ensures p in report {
      assert p in Elems(DiamondEvent(cur).prev);
    }
    u := ThenRepair(s, t, RepairPrev(report));
    u := ThenRepair(s, u, RepairAuth([]));
    assert report + [] == report;
    u := ThenRepair(s, u, RepairScan);
  }

  lemma NothingNew(report: seq<EventId>, seen: set<EventId>)
    requires Elems(report) <= seen
    ensures Fresh(report, seen) == [] && seen + Elems(report) == seen
  {
    FreshElems(report, seen);
    assert |Fresh(report, seen)| == |Elems(report) - seen|;
    assert Elems(report) - seen == {};
  }

  /** The search for one lost event whose ancestors are all being searched for already. */
  lemma SearchLeaf(s: State, t: State, h: Hunt, tried: set<EventId>) returns (u: State)
    requires Leads(s, t) && OnHunt(t, h, tried)
    requires h.queue != [] && h.queue[0] in ["r", "a", "b"] && h.queue[0] !in tried
    requires Elems(DiamondEvent(h.queue[0]).prev) <= h.searching
    ensures Leads(s, u)
    ensures OnHunt(u, Hunt(h.root, h.queue[1..], h.searching, h.collected + [P(h.queue[0])]), tried + {h.queue[0]})
  {
    var report := DiamondEvent(h.queue[0]).prev;
    NothingNew(report, h.searching);
    u := SearchOne(s, t, h, tried, report);
    assert h.queue[1..] + [] == h.queue[1..];
  }

  /** A walk can come to a hunt for `r` and, with the gap steady and every report whole, send exactly this. */
  ghost predicate CanSend(out: seq<Pdu>) {
    exists s, steps ::
      && Reaches(DiamondRoom(), Init(DiamondRoom(), {"s"}), s)
      && HuntBegins(DiamondGap(), s) && s.control == Running
      && OverDiamond(s, steps)
      && var t := End(DiamondRoom(), s, steps);
         t.repair.Sending? && t.repair.rest == [] && t.repair.out == out
  }

  lemma SendAll(s: State, t: State, h: Hunt, tried: set<EventId>) returns (u: State)
    requires Leads(s, t) && OnHunt(t, h, tried) && h.queue == [] && 0 < |h.collected| <= SEND_LIMIT
    ensures Leads(s, u)
    ensures u.repair.Sending? && u.repair.rest == [] && u.repair.out == Reverse(h.collected)
  {
    u := ThenRepair(s, t, RepairPop);
    u := ThenRepair(s, u, RepairSend);
    assert u.repair.out == [] + Reverse(h.collected)[..|h.collected|];
  }

  function P(id: EventId): Pdu {
    Pdu(id, DiamondEvent(id))
  }

  lemma FreshPair(x: EventId, y: EventId, seen: set<EventId>)
    requires x != y && x !in seen && y !in seen
    ensures Fresh([x, y], seen) == [x, y] && Elems([x, y]) == {x, y}
  {
    assert [y][1..] == [] && Fresh([y], seen + {x}) == [y] + [];
    assert [x, y][1..] == [y] && Fresh([x, y], seen) == [x] + [y];
  }

  predicate EitherOrder(first: EventId, second: EventId) {
    (first == "a" && second == "b") || (first == "b" && second == "a")
  }

  lemma RootReport(first: EventId, second: EventId)
    requires EitherOrder(first, second)
    ensures Elems([first, second]) == Elems(DiamondEvent("r").prev) == {} + {first, second}
    ensures Fresh([first, second], {}) == [first, second]
  {
    FreshPair(first, second, {});
    FreshPair("a", "b", {});
  }

  lemma SearchRoot(s: State, first: EventId, second: EventId) returns (t: State)
    requires OnHunt(s, Hunt("r", ["r"], {}, []), {}) && EitherOrder(first, second)
    ensures Leads(s, t)
    ensures OnHunt(t, Hunt("r", [first, second], {first, second}, [P("r")]), {"r"})
  {
    NoSteps(s);
    RootReport(first, second);
    var h := Hunt("r", ["r"], {}, []);
    t := SearchOne(s, s, h, {}, [first, second]);
    assert h.queue[1..] + [first, second] == [first, second] && [] + [P("r")] == [P("r")];
  }

  lemma SearchRest(s: State, t: State, first: EventId, second: EventId) returns (u: State)
    requires EitherOrder(first, second) && Leads(s, t)
    requires OnHunt(t, Hunt("r", [first, second], {first, second}, [P("r")]), {"r"})
    ensures Leads(s, u)
    ensures OnHunt(u, Hunt("r", [], {first, second}, [P("r"), P(first), P(second)]), {"r", first, second})
  {
    var h := Hunt("r", [first, second], {first, second}, [P("r")]);
    u := SearchLeaf(s, t, h, {"r"});
    assert h.queue[1..] == [second] && h.collected + [P(first)] == [P("r"), P(first)];
    assert {"r"} + {first} == {"r", first};
    h := Hunt("r", [second], {first, second}, [P("r"), P(first)]);
    u := SearchLeaf(s, u, h, {"r", first});
    assert h.queue[1..] == [] && h.collected + [P(second)] == [P("r"), P(first), P(second)];
    assert {"r", first} + {second} == {"r", first, second};
  }

  lemma DiamondRun(first: EventId, second: EventId)
    requires EitherOrder(first, second)
    ensures CanSend([P(second), P(first), P("r")])
  {
    var s := HuntDiamond();
    var t := SearchRoot(s, first, second);
    t := SearchRest(s, t, first, second);
    var h := Hunt("r", [], {first, second}, [P("r"), P(first), P(second)]);
    t := SendAll(s, t, h, {"r", first, second});
    assert Reverse(h.collected) == [P(second), P(first), P("r")];
    var steps :| OverDiamond(s, steps) && End(DiamondRoom(), s, steps) == t;
    assert HuntBegins(DiamondGap(), s);
  }

  lemma OnlyOneIsParentsFirst()
    ensures !ParentsFirst([P("b"), P("a"), P("r")])
    ensures ParentsFirst([P("a"), P("b"), P("r")])
  {
    var bad := [P("b"), P("a"), P("r")];
    assert "a" in DiamondEvent("b").prev && Names(bad[0].event, bad[1].asked);
    assert DiamondEvent("a").prev == [] && DiamondEvent("b").prev == ["a"];
  }

  /** Parents are not always sent first: over one gap, which stays as it is, and with every report naming
      all that the scanned event names, one run sends `b` before the `a` it names and another sends `a`
      first. */
  lemma LevelEdgeGoesEitherWay()
    ensures var bad, good := [P("b"), P("a"), P("r")], [P("a"), P("b"), P("r")];
            && CanSend(bad) && !ParentsFirst(bad)
            && CanSend(good) && ParentsFirst(good)
            && multiset(bad) == multiset(good)
  {
    DiamondRun("a", "b");
    DiamondRun("b", "a");
    OnlyOneIsParentsFirst();
  }
}
