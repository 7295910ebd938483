/** Exactly when a steady hunt sends parents before children: when no ancestor is reported too late. */
module RepairReports {
  import opened Collections
  import opened RoomWalk
  import opened RepairOrder
  import opened RepairLayers

  /** A report, taken when an event is scanned, names a lost event that was already searched for; the hunt
      does not search for it again. */
  ghost predicate LateReport(g: Gap, s: State, step: Step) {
    && step.ByRepair? && step.r.RepairAuth? && s.repair.ScanAuth?
    && exists p :: p in s.repair.prevBad + step.r.bad && p in g.lost && p in s.tried
  }

  ghost predicate AnyLate(room: Room, g: Gap, s: State, steps: seq<Step>)
    requires ValidRun(room, s, steps)
    decreases |steps|
  {
    steps != [] && (LateReport(g, s, steps[0]) || AnyLate(room, g, Apply(room, s, steps[0]), steps[1..]))
  }

  /** Event ids are hashes, so no event names itself. */
  ghost predicate NoSelfEdge(g: Gap) {
    forall x :: !Edge(g, x, x)
  }

  /** No collected event names one collected before it. */
  ghost predicate ChildrenFirst(c: seq<Pdu>) {
    forall i, j :: 0 <= i < j < |c| ==> !Names(c[j].event, c[i].asked)
  }

  /** The event being searched for names a lost one that was searched for before. */
  ghost predicate NamesTried(g: Gap, tried: set<EventId>, cur: EventId) {
    exists p :: Edge(g, cur, p) && p in tried
  }

  /** `late` tells whether a report came late so far. */
  ghost predicate LateInv(g: Gap, r: Repair, tried: set<EventId>, late: bool) {
    match r
    case RepairIdle => true
    case RepairEnded => true
    case Hunting(h) => ChildrenFirst(h.collected) <==> !late
    case Finding(h, cur) => ChildrenFirst(h.collected) <==> !late
    case Scanning(h, cur, _) => ChildrenFirst(h.collected) <==> !late
    case ScanPrev(h, cur, _, _) => ChildrenFirst(h.collected) <==> !late && !NamesTried(g, tried, cur)
    case ScanAuth(h, cur, _, _, _) => ChildrenFirst(h.collected) <==> !late && !NamesTried(g, tried, cur)
    case Sending(h, _, _) => ChildrenFirst(h.collected) <==> !late
  }

  ghost predicate NamesAsked(c: seq<Pdu>, e: Event) {
    exists i :: 0 <= i < |c| && Names(e, c[i].asked)
  }

  lemma ChildrenFirstSnoc(c: seq<Pdu>, x: Pdu)
    ensures ChildrenFirst(c + [x]) <==> ChildrenFirst(c) && !NamesAsked(c, x.event)
  {
    var d := c + [x];
    if ChildrenFirst(d) {
      forall i, j | 0 <= i < j < |c|
        ensures !Names(c[j].event, c[i].asked)
      {
        assert d[i] == c[i] && d[j] == c[j];
      }
      forall i | 0 <= i < |c|
        ensures !Names(x.event, c[i].asked)
      {
        assert d[i] == c[i] && d[|c|] == x;
      }
    }
  }

  /** What `cur` names among the collected events is what it names among the ids searched for. */
  lemma NamesCollected(g: Gap, h: Hunt, tried: set<EventId>, cur: EventId)
    requires Placed(g, h, tried, {cur}) && cur in g.lost && NoSelfEdge(g)
    ensures NamesAsked(h.collected, g.lost[cur]) <==> NamesTried(g, tried, cur)
  {
    if NamesAsked(h.collected, g.lost[cur]) {
      var i :| 0 <= i < |h.collected| && Names(g.lost[cur], h.collected[i].asked);
      assert Edge(g, cur, h.collected[i].asked);
    }
    if NamesTried(g, tried, cur) {
      var p :| Edge(g, cur, p) && p in tried;
      assert p != cur;
      var i :| 0 <= i < |h.collected| && h.collected[i].asked == p;
      assert Names(g.lost[cur], h.collected[i].asked);
    }
  }

  lemma LateScan(g: Gap, s: State, late: bool)
    requires s.repair.Scanning? && LayerInv(g, s.repair, s.tried) && LateInv(g, s.repair, s.tried, late)
    requires NoSelfEdge(g)
    ensures var t := DoRepairScan(s); LateInv(g, t.repair, t.tried, late)
  {
    var r := s.repair;
    if r.hits != [] {
      assert r.hits[0] in r.hits;
      ChildrenFirstSnoc(r.hunt.collected, Pdu(r.cur, r.hits[0]));
      NamesCollected(g, r.hunt, s.tried, r.cur);
    }
  }

  lemma ReportedIsNamed(g: Gap, s: State, bad: seq<EventId>)
    requires s.repair.ScanAuth? && LayerInv(g, s.repair, s.tried) && Steady(g, s, ByRepair(RepairAuth(bad)))
    requires Elems(bad) <= Elems(s.repair.hit.auth)
    ensures LateReport(g, s, ByRepair(RepairAuth(bad))) <==> NamesTried(g, s.tried, s.repair.cur)
  {
    var r := s.repair;
    assert r.hit in [r.hit] + r.hits;
    ReportIsComplete(g, r.cur, r.prevBad, bad);
    forall p | p in r.prevBad + bad && p in g.lost
      ensures Edge(g, r.cur, p)
    {
      assert p in Elems(r.prevBad + bad);
    }
  }

  lemma LateRepair(room: Room, g: Gap, s: State, step: RepairStep, late: bool)
    requires RepairEnabled(room, s, step) && Steady(g, s, ByRepair(step)) && NoSelfEdge(g)
    requires LayerInv(g, s.repair, s.tried) && LateInv(g, s.repair, s.tried, late)
    ensures var t := ApplyRepair(room, s, step);
            LateInv(g, t.repair, t.tried, late || LateReport(g, s, ByRepair(step)))
  {
    match step
    case RepairScan => LateScan(g, s, late);
    case RepairAuth(bad) => ReportedIsNamed(g, s, bad);
    case _ =>
  }

  lemma {:induction false} LateOverRun(room: Room, g: Gap, s: State, steps: seq<Step>, late: bool)
    requires ValidRun(room, s, steps) && SteadyRun(room, g, s, steps) && NoSelfEdge(g) && s.control != Stopped
    requires LayerInv(g, s.repair, s.tried) && LateInv(g, s.repair, s.tried, late)
    ensures var t := End(room, s, steps);
            LateInv(g, t.repair, t.tried, late || AnyLate(room, g, s, steps))
    decreases |steps|
  {
    if steps != [] {
      NotStopped(room, g, s, steps[0]);
      if steps[0].ByRepair? {
        LayerRepair(room, g, s, steps[0].r);
        LateRepair(room, g, s, steps[0].r, late);
      } else {
        HuntIsPrivate(room, s, steps[0]);
      }
      LateOverRun(room, g, Apply(room, s, steps[0]), steps[1..], late || LateReport(g, s, steps[0]));
    }
  }

  lemma ReversedChildren(c: seq<Pdu>)
    ensures ParentsFirst(Reverse(c)) <==> ChildrenFirst(c)
  {
    var out, n := Reverse(c), |c|;
    if ParentsFirst(out) {
      forall i, j | 0 <= i < j < n
        ensures !Names(c[j].event, c[i].asked)
      {
        assert out[n - 1 - j] == c[j] && out[n - 1 - i] == c[i];
      }
    }
  }

  /** While the gap stays as it is, a hunt that has sent everything has sent parents before children
      exactly when no event it scanned was reported to lack an ancestor already searched for. */
  lemma ParentsFirstIffNoneLate(room: Room, g: Gap, s: State, steps: seq<Step>)
    requires HuntBegins(g, s) && s.control != Stopped && NoSelfEdge(g)
    requires ValidRun(room, s, steps) && SteadyRun(room, g, s, steps)
    ensures var t := End(room, s, steps);
            t.repair.Sending? && t.repair.rest == [] ==>
              (ParentsFirst(t.repair.out) <==> !AnyLate(room, g, s, steps))
  {
    LayersAtStart(g, s);
    LayersOverRun(room, g, s, steps);
    LateOverRun(room, g, s, steps, false);
    var t := End(room, s, steps);
    if t.repair.Sending? && t.repair.rest == [] {
      assert t.repair.out + t.repair.rest == t.repair.out;
      ReversedChildren(t.repair.hunt.collected);
    }
  }
}
