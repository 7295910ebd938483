/** In which order one hunt sends the events it collected. */
module RepairOrder {
  import opened Collections
  import opened RoomWalk
  import opened RoomWalkSafety

  // ----- the collected list

  /** Collected event `j` names the id asked for at `i`, and every copy of what was asked for at `j`
      comes before `i`. */
  ghost predicate Causes(c: seq<Pdu>, j: int, i: int)
    requires 0 <= j < |c| && 0 <= i < |c|
  {
    && j < i
    && Names(c[j].event, c[i].asked)
    && forall m :: i <= m < |c| ==> c[m].asked != c[j].asked
  }

  ghost predicate Caused(c: seq<Pdu>, i: int)
    requires 0 <= i < |c|
  {
    exists j :: 0 <= j < |c| && Causes(c, j, i)
  }

  /** Every collected event except the one the hunt is for was named by one collected before it. */
  ghost predicate CollectedInOrder(h: Hunt) {
    forall i :: 0 <= i < |h.collected| && h.collected[i].asked != h.root ==> Caused(h.collected, i)
  }

  /** Some collected event, asked for under another id, names `id`. */
  ghost predicate NamedBefore(c: seq<Pdu>, id: EventId, cur: EventId) {
    exists j :: 0 <= j < |c| && c[j].asked != cur && Names(c[j].event, id)
  }

  ghost predicate Named(c: seq<Pdu>, id: EventId) {
    exists j :: 0 <= j < |c| && Names(c[j].event, id)
  }

  ghost predicate HuntInv(h: Hunt, tried: set<EventId>) {
    && CollectedInOrder(h)
    && (forall i :: 0 <= i < |h.collected| ==> h.collected[i].asked in tried)
    && (forall id :: id in h.queue && id != h.root ==> Named(h.collected, id))
  }

  /** `id` is asked for only at the end of the list. */
  ghost predicate AtEnd(c: seq<Pdu>, id: EventId) {
    forall a, b :: 0 <= a < b < |c| && c[a].asked == id ==> c[b].asked == id
  }

  /** While `cur` is scanned its copies are the end of the collected list. */
  ghost predicate ScanInv(h: Hunt, cur: EventId, tried: set<EventId>) {
    && HuntInv(h, tried)
    && cur in tried
    && AtEnd(h.collected, cur)
    && (cur != h.root ==> NamedBefore(h.collected, cur, cur))
  }

  ghost predicate OrderInv(r: Repair, tried: set<EventId>) {
    match r
    case RepairIdle => true
    case RepairEnded => true
    case Hunting(h) => HuntInv(h, tried)
    case Finding(h, cur) => ScanInv(h, cur, tried) && forall i :: 0 <= i < |h.collected| ==> h.collected[i].asked != cur
    case Scanning(h, cur, _) => ScanInv(h, cur, tried)
    case ScanPrev(h, cur, _, hit) => ScanInv(h, cur, tried) && Pdu(cur, hit) in h.collected
    case ScanAuth(h, cur, _, hit, bad) =>
      ScanInv(h, cur, tried) && Pdu(cur, hit) in h.collected && Elems(bad) <= Elems(hit.prev)
    case Sending(h, rest, out) => CollectedInOrder(h) && out + rest == Reverse(h.collected)
  }

  lemma CausedAfterAppend(c: seq<Pdu>, x: Pdu, i: int)
    requires 0 <= i < |c| && Caused(c, i)
    requires AtEnd(c, x.asked)
    ensures Caused(c + [x], i)
  {
    var j :| 0 <= j < |c| && Causes(c, j, i);
    assert c[j].asked != x.asked;
    assert Causes(c + [x], j, i);
  }

  lemma CausedAtAppend(c: seq<Pdu>, x: Pdu)
    requires NamedBefore(c, x.asked, x.asked)
    ensures Caused(c + [x], |c|)
  {
    var j :| 0 <= j < |c| && c[j].asked != x.asked && Names(c[j].event, x.asked);
    assert Causes(c + [x], j, |c|);
  }

  lemma NamedAfterAppend(c: seq<Pdu>, x: Pdu, id: EventId, cur: EventId)
    ensures Named(c, id) ==> Named(c + [x], id)
    ensures NamedBefore(c, id, cur) ==> NamedBefore(c + [x], id, cur)
  {
    assert forall j :: 0 <= j < |c| ==> (c + [x])[j] == c[j];
  }

  lemma InOrderAfterAppend(h: Hunt, x: Pdu)
    requires CollectedInOrder(h) && AtEnd(h.collected, x.asked)
    requires x.asked != h.root ==> NamedBefore(h.collected, x.asked, x.asked)
    ensures CollectedInOrder(h.(collected := h.collected + [x]))
  {
    var c, d := h.collected, h.collected + [x];
    forall i | 0 <= i < |d| && d[i].asked != h.root
      ensures Caused(d, i)
    {
      if i < |c| {
        CausedAfterAppend(c, x, i);
      } else {
        CausedAtAppend(c, x);
      }
    }
  }

  /** Collecting one more copy of the id being scanned. */
  lemma Collect(h: Hunt, cur: EventId, hit: Event, tried: set<EventId>)
    requires ScanInv(h, cur, tried)
    ensures ScanInv(h.(collected := h.collected + [Pdu(cur, hit)]), cur, tried)
    ensures Pdu(cur, hit) in h.collected + [Pdu(cur, hit)]
  {
    var c, x := h.collected, Pdu(cur, hit);
    InOrderAfterAppend(h, x);
    forall id | id in h.queue && id != h.root
      ensures Named(c + [x], id)
    {
      NamedAfterAppend(c, x, id, cur);
    }
    NamedAfterAppend(c, x, cur, cur);
    assert (c + [x])[|c|] == x;
  }

  /** Queueing ids that the event just collected names. */
  lemma Enqueue(h: Hunt, cur: EventId, hit: Event, order: seq<EventId>, searching: set<EventId>, tried: set<EventId>)
    requires ScanInv(h, cur, tried) && Pdu(cur, hit) in h.collected && Elems(order) <= Parents(hit)
    ensures ScanInv(h.(queue := h.queue + Fresh(order, h.searching), searching := searching), cur, tried)
  {
    var added := Fresh(order, h.searching);
    FreshElems(order, h.searching);
    var j :| 0 <= j < |h.collected| && h.collected[j] == Pdu(cur, hit);
    forall id | id in h.queue + added && id != h.root
      ensures Named(h.collected, id)
    {
      if id !in h.queue {
        assert id in Elems(added);
        assert Names(h.collected[j].event, id);
      }
    }
  }

  /** Taking the next id off the local queue. */
  lemma Dequeue(h: Hunt, tried: set<EventId>)
    requires HuntInv(h, tried) && h.queue != [] && h.queue[0] !in tried
    ensures ScanInv(h.(queue := h.queue[1..]), h.queue[0], tried + {h.queue[0]})
  {
    var popped := h.queue[0];
    assert popped in h.queue;
    if popped != h.root {
      var j :| 0 <= j < |h.collected| && Names(h.collected[j].event, popped);
      assert h.collected[j].asked != popped;
    }
  }

  lemma OrderRepair(room: Room, s: State, step: RepairStep)
    requires RepairEnabled(room, s, step) && OrderInv(s.repair, s.tried)
    ensures var t := ApplyRepair(room, s, step); OrderInv(t.repair, t.tried)
  {
    match step
    case RepairPop =>
      var h := s.repair.hunt;
      if h.queue != [] && s.control != Stopped && h.queue[0] !in s.tried {
        Dequeue(h, s.tried);
      }
    case RepairScan =>
      if s.repair.hits != [] {
        Collect(s.repair.hunt, s.repair.cur, s.repair.hits[0], s.tried);
      }
    case RepairAuth(bad) =>
      var order := s.repair.prevBad + bad;
      ElemsOfConcat(s.repair.prevBad, bad);
      Enqueue(s.repair.hunt, s.repair.cur, s.repair.hit, order, s.repair.hunt.searching + Elems(order), s.tried);
    case _ =>
  }

  lemma HuntIsPrivate(room: Room, s: State, step: Step)
    requires Enabled(room, s, step) && !step.ByRepair?
    ensures var t := Apply(room, s, step); t.repair == s.repair && t.tried == s.tried
  {
  }

  lemma OrderStep(room: Room, s: State, step: Step)
    requires Enabled(room, s, step) && OrderInv(s.repair, s.tried)
    ensures var t := Apply(room, s, step); OrderInv(t.repair, t.tried)
  {
    if step.ByRepair? {
      OrderRepair(room, s, step.r);
    } else {
      HuntIsPrivate(room, s, step);
    }
  }

  lemma {:induction false} OrderOverRun(room: Room, s: State, steps: seq<Step>)
    requires ValidRun(room, s, steps) && OrderInv(s.repair, s.tried)
    ensures var t := End(room, s, steps); OrderInv(t.repair, t.tried)
    decreases |steps|
  {
    if steps != [] {
      OrderStep(room, s, steps[0]);
      OrderOverRun(room, Apply(room, s, steps[0]), steps[1..]);
    }
  }

  // ----- the order of sending

  /** In the sent list `out`, entry `i` goes out before entry `j`, which names it, and no copy of what
      was asked for at `j` goes out as early as `i`. */
  ghost predicate SentBefore(out: seq<Pdu>, i: int, j: int)
    requires 0 <= i < |out| && 0 <= j < |out|
  {
    && i < j
    && Names(out[j].event, out[i].asked)
    && forall m :: 0 <= m <= i ==> out[m].asked != out[j].asked
  }

  ghost predicate SentBeforeSome(out: seq<Pdu>, i: int)
    requires 0 <= i < |out|
  {
    exists j :: 0 <= j < |out| && SentBefore(out, i, j)
  }

  /** When a hunt has sent everything, each event other than the one it was for went out before all
      copies of some event that names it.  This holds whatever the donors answered. */
  lemma SendOrder(room: Room, served: set<EventId>, steps: seq<Step>)
    requires ValidRun(room, Init(room, served), steps)
    ensures var s := End(room, Init(room, served), steps);
            s.repair.Sending? && s.repair.rest == [] ==>
              && s.repair.out == Reverse(s.repair.hunt.collected)
              && forall i :: 0 <= i < |s.repair.out| && s.repair.out[i].asked != s.repair.hunt.root ==>
                   SentBeforeSome(s.repair.out, i)
  {
    var s := End(room, Init(room, served), steps);
    OrderOverRun(room, Init(room, served), steps);
    if s.repair.Sending? && s.repair.rest == [] {
      assert s.repair.out + s.repair.rest == s.repair.out;
      ReversedOrder(s.repair.hunt);
    }
  }

  lemma ReversedCause(c: seq<Pdu>, i: int)
    requires 0 <= i < |c| && Caused(c, |c| - 1 - i)
    ensures SentBeforeSome(Reverse(c), i)
  {
    var out, n := Reverse(c), |c|;
    var j :| 0 <= j < n && Causes(c, j, n - 1 - i);
    assert out[n - 1 - j] == c[j];
    forall m | 0 <= m <= i
      ensures out[m].asked != out[n - 1 - j].asked
    {
      assert out[m] == c[n - 1 - m];
    }
    assert SentBefore(out, i, n - 1 - j);
  }

  lemma ReversedOne(h: Hunt, i: int)
    requires CollectedInOrder(h) && 0 <= i < |h.collected| && Reverse(h.collected)[i].asked != h.root
    ensures SentBeforeSome(Reverse(h.collected), i)
  {
    assert Reverse(h.collected)[i] == h.collected[|h.collected| - 1 - i];
    ReversedCause(h.collected, i);
  }

  lemma ReversedOrder(h: Hunt)
    requires CollectedInOrder(h)
    ensures var out := Reverse(h.collected);
            forall i :: 0 <= i < |out| && out[i].asked != h.root ==> SentBeforeSome(out, i)
  {
    var out := Reverse(h.collected);
    forall i | 0 <= i < |out| && out[i].asked != h.root
      ensures SentBeforeSome(out, i)
    {
      ReversedOne(h, i);
    }
  }

  /** No event goes out before an event it names. */
  ghost predicate ParentsFirst(out: seq<Pdu>) {
    forall i, j :: 0 <= i < j < |out| ==> !Names(out[i].event, out[j].asked)
  }

  /** The event the hunt is for is named by nothing sent, and any other by copies of one event only. */
  ghost predicate OneChildEach(out: seq<Pdu>, root: EventId) {
    && (forall j :: 0 <= j < |out| ==> !Names(out[j].event, root))
    && (forall j, k, id :: 0 <= j < |out| && 0 <= k < |out| && Names(out[j].event, id) && Names(out[k].event, id)
          ==> out[j].asked == out[k].asked)
  }

  /** When each missing event has one collected child, everything is sent parents before children. */
  lemma TreesGoOutParentsFirst(room: Room, served: set<EventId>, steps: seq<Step>)
    requires ValidRun(room, Init(room, served), steps)
    ensures var s := End(room, Init(room, served), steps);
            s.repair.Sending? && s.repair.rest == [] && OneChildEach(s.repair.out, s.repair.hunt.root) ==>
              ParentsFirst(s.repair.out)
  {
    var s := End(room, Init(room, served), steps);
    SendOrder(room, served, steps);
    if s.repair.Sending? && s.repair.rest == [] && OneChildEach(s.repair.out, s.repair.hunt.root) {
      var out := s.repair.out;
      forall i, j | 0 <= i < j < |out|
        ensures !Names(out[i].event, out[j].asked)
      {
        if out[j].asked != s.repair.hunt.root {
          var k :| 0 <= k < |out| && SentBefore(out, j, k);
          assert out[i].asked != out[k].asked;
        }
      }
    }
  }
}
