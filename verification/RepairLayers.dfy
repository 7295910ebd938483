/** What one hunt sends while the target's gap stays as it is: the whole gap behind the missing event,
    the events farthest from it first. */
module RepairLayers {
  import opened Collections
  import opened RoomWalk
  import opened RepairOrder

  // ----- the gap behind a missing event

  /** The events the target lacks and the donors have, and the missing event a hunt is for. */
  datatype Gap = Gap(lost: map<EventId, Event>, root: EventId)

  ghost predicate Edge(g: Gap, x: EventId, p: EventId) {
    x in g.lost && p in g.lost && p in Parents(g.lost[x])
  }

  /** The lost events at most `k` ancestor links behind the root. */
  ghost function Near(g: Gap, k: nat): set<EventId> {
    if k == 0 then (if g.root in g.lost then {g.root} else {})
    else Near(g, k - 1) + (set p | p in g.lost && exists x :: x in Near(g, k - 1) && Edge(g, x, p))
  }

  ghost predicate Behind(g: Gap, id: EventId) {
    exists k: nat :: id in Near(g, k)
  }

  ghost predicate NoFarther(g: Gap, a: EventId, b: EventId) {
    forall k: nat :: b in Near(g, k) ==> a in Near(g, k)
  }

  ghost predicate AtMostOneFarther(g: Gap, a: EventId, b: EventId) {
    forall k: nat :: a in Near(g, k) ==> b in Near(g, k + 1)
  }

  ghost predicate OneFarther(g: Gap, a: EventId, b: EventId) {
    b !in Near(g, 0) && forall k: nat :: a in Near(g, k) <==> b in Near(g, k + 1)
  }

  lemma NearGrows(g: Gap, k: nat)
    ensures Near(g, k) <= Near(g, k + 1)
  {
  }

  lemma {:induction false} NearIsLost(g: Gap, k: nat)
    ensures forall id :: id in Near(g, k) ==> id in g.lost
  {
    if k > 0 {
      NearIsLost(g, k - 1);
    }
  }

  // ----- a steady hunt

  /** Donors serve exactly the lost events, the target reports every lost ancestor as missing, nobody
      stops the walk, and the repair worker is on one hunt. */
  ghost predicate Steady(g: Gap, s: State, step: Step) {
    match step
    case Outside(Press(button)) => button != Stopped
    case ByRepair(RepairGet) => false
    case ByRepair(RepairFound(answers)) =>
      s.repair.Finding? ==>
        && (forall e :: e in Usable(answers) ==> s.repair.cur in g.lost && e == g.lost[s.repair.cur])
        && (s.repair.cur in g.lost ==> Usable(answers) != [])
    case ByRepair(RepairPrev(bad)) =>
      s.repair.ScanPrev? ==> forall p :: p in s.repair.hit.prev && p in g.lost ==> p in bad
    case ByRepair(RepairAuth(bad)) =>
      s.repair.ScanAuth? ==> forall p :: p in s.repair.hit.auth && p in g.lost ==> p in bad
    case _ => true
  }

  ghost predicate SteadyRun(room: Room, g: Gap, s: State, steps: seq<Step>)
    decreases |steps|
  {
    steps == [] ||
    (Enabled(room, s, steps[0]) && Steady(g, s, steps[0]) && SteadyRun(room, g, Apply(room, s, steps[0]), steps[1..]))
  }

  // ----- what a steady hunt keeps

  ghost predicate Live(g: Gap, tried: set<EventId>, id: EventId) {
    id in g.lost && id !in tried
  }

  ghost predicate Asked(c: seq<Pdu>, id: EventId) {
    exists i :: 0 <= i < |c| && c[i].asked == id
  }

  ghost predicate Genuine(g: Gap, c: seq<Pdu>) {
    forall i :: 0 <= i < |c| ==> c[i].asked in g.lost && c[i].event == g.lost[c[i].asked] && Behind(g, c[i].asked)
  }

  ghost predicate NearestFirst(g: Gap, c: seq<Pdu>) {
    forall i, j :: 0 <= i < j < |c| ==> NoFarther(g, c[i].asked, c[j].asked)
  }

  ghost predicate QueueOrder(g: Gap, h: Hunt, tried: set<EventId>) {
    && (forall i, q :: 0 <= i < |h.collected| && q in h.queue && Live(g, tried, q) ==>
          NoFarther(g, h.collected[i].asked, q))
    && (forall i, j :: 0 <= i < j < |h.queue| && Live(g, tried, h.queue[i]) && Live(g, tried, h.queue[j]) ==>
          NoFarther(g, h.queue[i], h.queue[j]))
    && (forall a, b :: a in h.queue && b in h.queue && Live(g, tried, a) && Live(g, tried, b) ==>
          AtMostOneFarther(g, a, b))
  }

  /** `cur`, which is being searched for, lies between what was collected and what is queued. */
  ghost predicate CurOrder(g: Gap, h: Hunt, tried: set<EventId>, cur: EventId) {
    && (forall i :: 0 <= i < |h.collected| ==> NoFarther(g, h.collected[i].asked, cur))
    && (forall q :: q in h.queue && Live(g, tried, q) ==> NoFarther(g, cur, q) && AtMostOneFarther(g, cur, q))
    && Behind(g, cur)
  }

  /** Where every lost id met so far is: collected, being searched for (`now`), or queued. */
  ghost predicate Placed(g: Gap, h: Hunt, tried: set<EventId>, now: set<EventId>) {
    && h.root == g.root
    && Genuine(g, h.collected) && NearestFirst(g, h.collected)
    && (forall i :: 0 <= i < |h.collected| ==> h.collected[i].asked in tried)
    && (forall id :: id in g.lost && id in tried ==> Asked(h.collected, id) || id in now)
    && (forall id :: id in h.searching && Live(g, tried, id) ==> id in h.queue)
    && (forall q :: q in h.queue && Live(g, tried, q) ==> Behind(g, q) && (q in h.searching || q == h.root))
  }

  ghost predicate Met(g: Gap, h: Hunt, tried: set<EventId>, x: EventId) {
    forall p :: Edge(g, x, p) ==> p in tried || p in h.queue
  }

  ghost predicate Expanded(g: Gap, h: Hunt, tried: set<EventId>, but: set<EventId>) {
    forall x :: Asked(h.collected, x) && x !in but ==> Met(g, h, tried, x)
  }

  ghost predicate HuntLayers(g: Gap, h: Hunt, tried: set<EventId>) {
    && Placed(g, h, tried, {}) && QueueOrder(g, h, tried) && Expanded(g, h, tried, {})
    && (Live(g, tried, g.root) ==> h.queue == [g.root])
  }

  ghost predicate ScanLayers(g: Gap, h: Hunt, tried: set<EventId>, cur: EventId) {
    && Placed(g, h, tried, {cur}) && QueueOrder(g, h, tried) && Expanded(g, h, tried, {cur})
    && !Live(g, tried, g.root)
    && cur in tried && (cur in g.lost ==> CurOrder(g, h, tried, cur))
  }

  ghost predicate HitsOf(g: Gap, hits: seq<Event>, cur: EventId) {
    forall e :: e in hits ==> cur in g.lost && e == g.lost[cur]
  }

  /** The collected list is the gap, nearest first. */
  ghost predicate GapCollected(g: Gap, c: seq<Pdu>) {
    && Genuine(g, c) && NearestFirst(g, c)
    && forall id :: Behind(g, id) ==> Asked(c, id)
  }

  ghost predicate LayerInv(g: Gap, r: Repair, tried: set<EventId>) {
    match r
    case RepairIdle => true
    case RepairEnded => true
    case Hunting(h) => HuntLayers(g, h, tried)
    case Finding(h, cur) => ScanLayers(g, h, tried, cur)
    case Scanning(h, cur, hits) =>
      && ScanLayers(g, h, tried, cur) && HitsOf(g, hits, cur)
      && (hits == [] && cur in g.lost ==> Asked(h.collected, cur) && Met(g, h, tried, cur))
    case ScanPrev(h, cur, hits, hit) =>
      ScanLayers(g, h, tried, cur) && HitsOf(g, [hit] + hits, cur) && Asked(h.collected, cur)
    case ScanAuth(h, cur, hits, hit, bad) =>
      && ScanLayers(g, h, tried, cur) && HitsOf(g, [hit] + hits, cur) && Asked(h.collected, cur)
      && Elems(bad) <= Elems(hit.prev) && (forall p :: p in hit.prev && p in g.lost ==> p in bad)
    case Sending(h, rest, out) => GapCollected(g, h.collected) && out + rest == Reverse(h.collected)
  }

  // ----- the next layer

  /** Ids reached from the root by links that `done` is closed under, up to the ids in `out`. */
  lemma {:induction false} ReachedInside(g: Gap, done: set<EventId>, out: set<EventId>, k: nat, x: EventId)
    requires x in Near(g, k) && out !! Near(g, k)
    requires g.root in g.lost ==> g.root in done + out
    requires forall y, z :: y in done && Edge(g, y, z) ==> z in done + out
    ensures x in done
    decreases k
  {
    if k > 0 {
      NearGrows(g, k - 1);
      if x in Near(g, k - 1) {
        ReachedInside(g, done, out, k - 1, x);
      } else {
        var y :| y in Near(g, k - 1) && Edge(g, y, x);
        ReachedInside(g, done, out, k - 1, y);
      }
    }
  }

  ghost function AskedIds(c: seq<Pdu>): (ids: set<EventId>)
    ensures forall id :: id in ids <==> Asked(c, id)
  {
    var ids := set p | p in c :: p.asked;
    assert forall id :: Asked(c, id) ==> id in ids by {
      forall id | Asked(c, id)
        ensures id in ids
      {
        var i :| 0 <= i < |c| && c[i].asked == id;
        assert c[i] in c;
      }
    }
    ids
  }

  ghost function LiveIds(g: Gap, h: Hunt, tried: set<EventId>): set<EventId> {
    set q | q in h.queue && Live(g, tried, q)
  }

  lemma ScanIsClosed(g: Gap, h: Hunt, tried: set<EventId>, cur: EventId, y: EventId, z: EventId)
    requires Placed(g, h, tried, {cur}) && Expanded(g, h, tried, {cur})
    requires y in AskedIds(h.collected) - {cur} && Edge(g, y, z)
    ensures z in (AskedIds(h.collected) - {cur}) + ({cur} + LiveIds(g, h, tried))
  {
    assert Met(g, h, tried, y);
  }

  /** Everything strictly nearer than `cur` has been collected. */
  lemma NearerIsCollected(g: Gap, h: Hunt, tried: set<EventId>, cur: EventId, k: nat, x: EventId)
    requires ScanLayers(g, h, tried, cur) && cur in g.lost && cur !in Near(g, k) && x in Near(g, k)
    ensures Asked(h.collected, x) && x != cur
  {
    var done, out := AskedIds(h.collected) - {cur}, {cur} + LiveIds(g, h, tried);
    LaterIsFarther(g, h, tried, cur, k);
    forall y, z | y in done && Edge(g, y, z)
      ensures z in done + out
    {
      ScanIsClosed(g, h, tried, cur, y, z);
    }
    ReachedInside(g, done, out, k, x);
  }

  lemma LaterIsFarther(g: Gap, h: Hunt, tried: set<EventId>, cur: EventId, k: nat)
    requires CurOrder(g, h, tried, cur) && cur !in Near(g, k)
    ensures LiveIds(g, h, tried) !! Near(g, k)
  {
    forall q | q in LiveIds(g, h, tried)
      ensures q !in Near(g, k)
    {
      assert NoFarther(g, cur, q);
    }
  }

  /** A lost ancestor of `cur` met for the first time is exactly one link farther than `cur`. */
  lemma NewIsOneFarther(g: Gap, h: Hunt, tried: set<EventId>, cur: EventId, p: EventId)
    requires ScanLayers(g, h, tried, cur) && Edge(g, cur, p) && p !in tried && p !in h.queue
    ensures OneFarther(g, cur, p)
  {
    forall k: nat
      ensures cur in Near(g, k) <==> p in Near(g, k + 1)
    {
      if cur !in Near(g, k) {
        NewIsNotNearer(g, h, tried, cur, p, k);
      }
    }
  }

  lemma NewIsNotNearer(g: Gap, h: Hunt, tried: set<EventId>, cur: EventId, p: EventId, k: nat)
    requires ScanLayers(g, h, tried, cur) && Edge(g, cur, p) && p !in tried && p !in h.queue
    requires cur !in Near(g, k)
    ensures p !in Near(g, k + 1)
  {
    if p in Near(g, k) {
      NearerIsCollected(g, h, tried, cur, k, p);
    }
    forall x | x in Near(g, k)
      ensures !Edge(g, x, p)
    {
      NearerIsCollected(g, h, tried, cur, k, x);
      assert Met(g, h, tried, x);
    }
  }

  // ----- one step of the hunt

  lemma StartOrder(g: Gap, h: Hunt, tried: set<EventId>)
    requires QueueOrder(g, h, tried) && h.queue != [] && h.queue[0] !in tried
    requires h.queue[0] in g.lost ==> Behind(g, h.queue[0])
    ensures var cur, h', tried' := h.queue[0], h.(queue := h.queue[1..]), tried + {h.queue[0]};
            QueueOrder(g, h', tried') && (cur in g.lost ==> CurOrder(g, h', tried', cur))
  {
    var cur, h', tried' := h.queue[0], h.(queue := h.queue[1..]), tried + {h.queue[0]};
    forall id ensures Live(g, tried', id) <==> Live(g, tried, id) && id != cur {}
    forall q ensures q in h.queue <==> q == cur || q in h'.queue {}
    assert cur in g.lost ==> Live(g, tried, cur);
    forall q | q in h'.queue && Live(g, tried', q) && cur in g.lost
      ensures NoFarther(g, cur, q)
    {
      var j :| 0 <= j < |h'.queue| && h'.queue[j] == q;
      assert h.queue[j + 1] == q;
    }
  }

  lemma StartSearch(g: Gap, h: Hunt, tried: set<EventId>)
    requires HuntLayers(g, h, tried) && h.queue != [] && h.queue[0] !in tried
    ensures ScanLayers(g, h.(queue := h.queue[1..]), tried + {h.queue[0]}, h.queue[0])
  {
    var cur, h', tried' := h.queue[0], h.(queue := h.queue[1..]), tried + {h.queue[0]};
    StartOrder(g, h, tried);
    forall q ensures q in h.queue <==> q == cur || q in h'.queue {}
    forall x | Asked(h.collected, x) && x != cur
      ensures Met(g, h', tried', x)
    {
      assert Met(g, h, tried, x);
    }
  }

  lemma SkipTried(g: Gap, h: Hunt, tried: set<EventId>)
    requires HuntLayers(g, h, tried) && h.queue != [] && h.queue[0] in tried
    ensures HuntLayers(g, h.(queue := h.queue[1..]), tried)
  {
    var h' := h.(queue := h.queue[1..]);
    forall q ensures q in h.queue <==> q == h.queue[0] || q in h'.queue {}
    forall x | Asked(h.collected, x)
      ensures Met(g, h', tried, x)
    {
      assert Met(g, h, tried, x);
    }
  }

  lemma AskedAfterAppend(c: seq<Pdu>, x: Pdu, id: EventId)
    ensures Asked(c + [x], id) <==> Asked(c, id) || id == x.asked
  {
    assert forall i :: 0 <= i < |c| ==> (c + [x])[i] == c[i];
    assert (c + [x])[|c|] == x;
  }

  lemma CollectCopy(g: Gap, h: Hunt, tried: set<EventId>, cur: EventId)
    requires ScanLayers(g, h, tried, cur) && cur in g.lost
    ensures var h' := h.(collected := h.collected + [Pdu(cur, g.lost[cur])]);
            ScanLayers(g, h', tried, cur) && Asked(h'.collected, cur)
  {
    var x := Pdu(cur, g.lost[cur]);
    var h' := h.(collected := h.collected + [x]);
    forall id ensures Asked(h'.collected, id) <==> Asked(h.collected, id) || id == cur {
      AskedAfterAppend(h.collected, x, id);
    }
    forall y | Asked(h'.collected, y) && y != cur
      ensures Met(g, h', tried, y)
    {
      assert Met(g, h, tried, y);
    }
  }

  lemma OneFartherOrder(g: Gap, cur: EventId, p: EventId, q: EventId)
    requires OneFarther(g, cur, p) && AtMostOneFarther(g, cur, q)
    ensures NoFarther(g, q, p) && AtMostOneFarther(g, p, q)
  {
    forall k: nat | p in Near(g, k)
      ensures q in Near(g, k) && q in Near(g, k + 1)
    {
      assert cur in Near(g, k - 1) && q in Near(g, k - 1 + 1);
      NearGrows(g, k);
    }
  }

  lemma OneFartherStep(g: Gap, cur: EventId, p: EventId)
    requires OneFarther(g, cur, p)
    ensures NoFarther(g, cur, p) && AtMostOneFarther(g, cur, p)
  {
    forall k: nat
      ensures p in Near(g, k) ==> cur in Near(g, k)
    {
      if k > 0 {
        NearGrows(g, k - 1);
      }
    }
    assert forall k: nat :: cur in Near(g, k) ==> p in Near(g, k + 1);
  }

  lemma Farther(g: Gap, cur: EventId, q: EventId, p: EventId)
    requires NoFarther(g, cur, q) && AtMostOneFarther(g, cur, p)
    ensures AtMostOneFarther(g, q, p)
  {
  }

  lemma Transitive(g: Gap, a: EventId, b: EventId, c: EventId)
    requires NoFarther(g, a, b) && NoFarther(g, b, c)
    ensures NoFarther(g, a, c)
  {
  }

  /** The lost ids among those just queued: new, and one link farther than `cur`. */
  ghost predicate NextLayer(g: Gap, tried: set<EventId>, cur: EventId, added: seq<EventId>) {
    forall p :: p in added && Live(g, tried, p) ==> cur in g.lost && OneFarther(g, cur, p)
  }

  lemma QueueGrowsOrdered(g: Gap, h: Hunt, tried: set<EventId>, cur: EventId, added: seq<EventId>)
    requires QueueOrder(g, h, tried) && (cur in g.lost ==> CurOrder(g, h, tried, cur))
    requires NextLayer(g, tried, cur, added)
    ensures var h' := h.(queue := h.queue + added);
            QueueOrder(g, h', tried) && (cur in g.lost ==> CurOrder(g, h', tried, cur))
  {
    var h' := h.(queue := h.queue + added);
    forall p | p in added && Live(g, tried, p)
      ensures NoFarther(g, cur, p) && AtMostOneFarther(g, cur, p)
      ensures forall i :: 0 <= i < |h.collected| ==> NoFarther(g, h.collected[i].asked, p)
    {
      OneFartherStep(g, cur, p);
      forall i | 0 <= i < |h.collected| ensures NoFarther(g, h.collected[i].asked, p) {
        Transitive(g, h.collected[i].asked, cur, p);
      }
    }
    forall q, p | q in h'.queue && Live(g, tried, q) && p in added && Live(g, tried, p)
      ensures NoFarther(g, q, p) && AtMostOneFarther(g, p, q) && AtMostOneFarther(g, q, p)
    {
      OneFartherOrder(g, cur, p, q);
      Farther(g, cur, q, p);
    }
  }

  lemma QueueAncestors(g: Gap, h: Hunt, tried: set<EventId>, cur: EventId, order: seq<EventId>)
    requires ScanLayers(g, h, tried, cur) && cur in g.lost && Asked(h.collected, cur)
    requires Elems(order) <= Parents(g.lost[cur])
    requires forall p :: Edge(g, cur, p) ==> p in order
    ensures var h' := h.(queue := h.queue + Fresh(order, h.searching), searching := h.searching + Elems(order));
            ScanLayers(g, h', tried, cur) && Met(g, h', tried, cur)
  {
    var added := Fresh(order, h.searching);
    FreshElems(order, h.searching);
    forall p ensures p in added <==> p in order && p !in h.searching {
      assert p in added <==> p in Elems(added);
    }
    forall p | p in added && Live(g, tried, p)
      ensures OneFarther(g, cur, p) && Behind(g, p)
    {
      assert p in Elems(order) && Edge(g, cur, p);
      NewIsOneFarther(g, h, tried, cur, p);
      var k: nat :| cur in Near(g, k);
      assert p in Near(g, k + 1);
    }
    QueueGrowsOrdered(g, h, tried, cur, added);
    QueuePlaced(g, h, tried, cur, order);
  }

  lemma QueuePlaced(g: Gap, h: Hunt, tried: set<EventId>, cur: EventId, order: seq<EventId>)
    requires Placed(g, h, tried, {cur}) && Expanded(g, h, tried, {cur})
    requires forall p :: Edge(g, cur, p) ==> p in order
    requires forall p :: p in Fresh(order, h.searching) <==> p in order && p !in h.searching
    requires forall p :: p in Fresh(order, h.searching) && Live(g, tried, p) ==> Behind(g, p)
    ensures var h' := h.(queue := h.queue + Fresh(order, h.searching), searching := h.searching + Elems(order));
            Placed(g, h', tried, {cur}) && Expanded(g, h', tried, {cur}) && Met(g, h', tried, cur)
  {
    var h' := h.(queue := h.queue + Fresh(order, h.searching), searching := h.searching + Elems(order));
    forall x | Asked(h.collected, x) && x != cur
      ensures Met(g, h', tried, x)
    {
      assert Met(g, h, tried, x);
    }
  }

  lemma ScanDone(g: Gap, h: Hunt, tried: set<EventId>, cur: EventId)
    requires ScanLayers(g, h, tried, cur)
    requires cur in g.lost ==> Asked(h.collected, cur) && Met(g, h, tried, cur)
    ensures HuntLayers(g, h, tried)
  {
    assert forall x :: Asked(h.collected, x) ==> x in g.lost;
  }

  lemma HuntEnds(g: Gap, h: Hunt, tried: set<EventId>)
    requires HuntLayers(g, h, tried) && h.queue == []
    ensures GapCollected(g, h.collected)
  {
    var done := AskedIds(h.collected);
    forall y, z | y in done && Edge(g, y, z)
      ensures z in done + {}
    {
      assert Met(g, h, tried, y);
    }
    forall id | Behind(g, id)
      ensures Asked(h.collected, id)
    {
      var k: nat :| id in Near(g, k);
      ReachedInside(g, done, {}, k, id);
    }
  }

  lemma LayerPop(g: Gap, s: State)
    requires s.repair.Hunting? && s.control != Stopped && HuntLayers(g, s.repair.hunt, s.tried)
    ensures var t := DoRepairPop(s); LayerInv(g, t.repair, t.tried)
  {
    var h := s.repair.hunt;
    if h.queue == [] {
      HuntEnds(g, h, s.tried);
      assert [] + Reverse(h.collected) == Reverse(h.collected);
    } else if h.queue[0] in s.tried {
      SkipTried(g, h, s.tried);
    } else {
      StartSearch(g, h, s.tried);
    }
  }

  lemma LayerScan(g: Gap, s: State)
    requires s.repair.Scanning? && LayerInv(g, s.repair, s.tried)
    ensures var t := DoRepairScan(s); LayerInv(g, t.repair, t.tried)
  {
    var r := s.repair;
    if r.hits == [] {
      ScanDone(g, r.hunt, s.tried, r.cur);
    } else {
      assert r.hits[0] in r.hits && [r.hits[0]] + r.hits[1..] == r.hits;
      CollectCopy(g, r.hunt, s.tried, r.cur);
    }
  }

  lemma LayerAuth(g: Gap, s: State, bad: seq<EventId>)
    requires s.repair.ScanAuth? && LayerInv(g, s.repair, s.tried) && Steady(g, s, ByRepair(RepairAuth(bad)))
    requires Elems(bad) <= Elems(s.repair.hit.auth)
    ensures var t := DoRepairAuth(s, bad); LayerInv(g, t.repair, t.tried)
  {
    var r := s.repair;
    assert r.hit in [r.hit] + r.hits;
    assert forall e :: e in r.hits ==> e in [r.hit] + r.hits;
    ReportIsComplete(g, r.cur, r.prevBad, bad);
    QueueAncestors(g, r.hunt, s.tried, r.cur, r.prevBad + bad);
  }

  lemma ReportIsComplete(g: Gap, cur: EventId, prevBad: seq<EventId>, authBad: seq<EventId>)
    requires cur in g.lost
    requires Elems(prevBad) <= Elems(g.lost[cur].prev) && Elems(authBad) <= Elems(g.lost[cur].auth)
    requires forall p :: p in g.lost[cur].prev && p in g.lost ==> p in prevBad
    requires forall p :: p in g.lost[cur].auth && p in g.lost ==> p in authBad
    ensures Elems(prevBad + authBad) <= Parents(g.lost[cur])
    ensures forall p :: Edge(g, cur, p) ==> p in prevBad + authBad
  {
    ElemsOfConcat(prevBad, authBad);
  }

  lemma LayerRepair(room: Room, g: Gap, s: State, step: RepairStep)
    requires RepairEnabled(room, s, step) && Steady(g, s, ByRepair(step))
    requires LayerInv(g, s.repair, s.tried) && s.control != Stopped
    ensures var t := ApplyRepair(room, s, step); LayerInv(g, t.repair, t.tried)
  {
    match step
    case RepairPop => LayerPop(g, s);
    case RepairScan => LayerScan(g, s);
    case RepairAuth(bad) => LayerAuth(g, s, bad);
    case _ =>
  }

  lemma NotStopped(room: Room, g: Gap, s: State, step: Step)
    requires Enabled(room, s, step) && Steady(g, s, step) && s.control != Stopped
    ensures Apply(room, s, step).control != Stopped
  {
  }

  lemma {:induction false} LayersOverRun(room: Room, g: Gap, s: State, steps: seq<Step>)
    requires ValidRun(room, s, steps) && SteadyRun(room, g, s, steps)
    requires LayerInv(g, s.repair, s.tried) && s.control != Stopped
    ensures var t := End(room, s, steps); LayerInv(g, t.repair, t.tried)
    decreases |steps|
  {
    if steps != [] {
      NotStopped(room, g, s, steps[0]);
      if steps[0].ByRepair? {
        LayerRepair(room, g, s, steps[0].r);
      } else {
        HuntIsPrivate(room, s, steps[0]);
      }
      LayersOverRun(room, g, Apply(room, s, steps[0]), steps[1..]);
    }
  }

  // ----- what is sent

  ghost predicate FarthestFirst(g: Gap, out: seq<Pdu>) {
    forall i, j :: 0 <= i < j < |out| ==> NoFarther(g, out[j].asked, out[i].asked)
  }

  /** `out` holds the lost events behind the root and nothing else, the farthest first. */
  ghost predicate GapSent(g: Gap, out: seq<Pdu>) {
    && Genuine(g, out) && FarthestFirst(g, out)
    && forall id :: Behind(g, id) ==> Asked(out, id)
  }

  lemma AskedInReverse(c: seq<Pdu>, id: EventId)
    requires Asked(c, id)
    ensures Asked(Reverse(c), id)
  {
    var i :| 0 <= i < |c| && c[i].asked == id;
    assert Reverse(c)[|c| - 1 - i] == c[i];
  }

  lemma NearestFirstReversed(g: Gap, c: seq<Pdu>)
    requires NearestFirst(g, c)
    ensures FarthestFirst(g, Reverse(c))
  {
  }

  lemma ReversedGap(g: Gap, c: seq<Pdu>)
    requires GapCollected(g, c)
    ensures GapSent(g, Reverse(c))
  {
    NearestFirstReversed(g, c);
    forall id | Behind(g, id)
      ensures Asked(Reverse(c), id)
    {
      AskedInReverse(c, id);
    }
  }

  ghost predicate HuntBegins(g: Gap, s: State) {
    s.repair == Hunting(Hunt(g.root, [g.root], {}, [])) && forall id :: id in g.lost ==> id !in s.tried
  }

  lemma LayersAtStart(g: Gap, s: State)
    requires HuntBegins(g, s)
    ensures LayerInv(g, s.repair, s.tried)
  {
    if g.root in g.lost {
      assert g.root in Near(g, 0);
      NearGrowsForEver(g);
    }
  }

  lemma NearGrowsForEver(g: Gap)
    ensures AtMostOneFarther(g, g.root, g.root)
  {
    forall k: nat ensures Near(g, k) <= Near(g, k + 1) {
      NearGrows(g, k);
    }
  }

  /** While the gap stays as it is, a hunt that has sent everything has sent the lost events behind the
      missing one, all of them and no others, the farthest first. */
  lemma HuntSendsTheGap(room: Room, g: Gap, s: State, steps: seq<Step>)
    requires HuntBegins(g, s) && s.control != Stopped
    requires ValidRun(room, s, steps) && SteadyRun(room, g, s, steps)
    ensures var t := End(room, s, steps);
            t.repair.Sending? && t.repair.rest == [] ==> GapSent(g, t.repair.out)
  {
    LayersAtStart(g, s);
    LayersOverRun(room, g, s, steps);
    var t := End(room, s, steps);
    if t.repair.Sending? && t.repair.rest == [] {
      assert t.repair.out + t.repair.rest == t.repair.out;
      ReversedGap(g, t.repair.hunt.collected);
    }
  }

  ghost predicate SameDistance(g: Gap, a: EventId, b: EventId) {
    NoFarther(g, a, b) && NoFarther(g, b, a)
  }

  /** No event behind the root names another at its own distance. */
  ghost predicate NoLevelEdge(g: Gap) {
    forall x, p :: Behind(g, x) && Edge(g, x, p) ==> !SameDistance(g, x, p)
  }

  /** No event behind the root names one that is nearer than itself. */
  ghost predicate NoEdgeBack(g: Gap) {
    forall x, p :: Behind(g, x) && Edge(g, x, p) ==> NoFarther(g, x, p)
  }

  lemma EdgeStaysBehind(g: Gap, x: EventId, p: EventId)
    requires Behind(g, x) && Edge(g, x, p)
    ensures Behind(g, p)
  {
    var k: nat :| x in Near(g, k);
    assert p in Near(g, k + 1);
  }

  /** If an event names a nearer one, what is sent is never parents before children; without an edge
      between events at one distance, it is whenever no event names a nearer one. */
  lemma ParentsFirstIff(g: Gap, out: seq<Pdu>)
    requires GapSent(g, out)
    ensures ParentsFirst(out) ==> NoEdgeBack(g)
    ensures NoLevelEdge(g) ==> (ParentsFirst(out) <==> NoEdgeBack(g))
  {
    if NoLevelEdge(g) && NoEdgeBack(g) {
      forall i, j | 0 <= i < j < |out|
        ensures !Names(out[i].event, out[j].asked)
      {
        if Names(out[i].event, out[j].asked) {
          assert Edge(g, out[i].asked, out[j].asked);
          assert SameDistance(g, out[i].asked, out[j].asked);
        }
      }
    }
    if ParentsFirst(out) {
      forall x, p | Behind(g, x) && Edge(g, x, p)
        ensures NoFarther(g, x, p)
      {
        EdgeStaysBehind(g, x, p);
        var i :| 0 <= i < |out| && out[i].asked == x;
        var j :| 0 <= j < |out| && out[j].asked == p;
        assert Names(out[i].event, out[j].asked);
      }
    }
  }
}
