/** The hosts of a room, ordered as the query on the room's current state would order them. */
module HostOrder {
  import opened Collections

  datatype StateEvent = StateEvent(eventType: string, stateKey: string, membership: string, depth: int)

  datatype HostError = NoDomain

  // ----- the query: domains of the joined members, by the least depth of each

  predicate IsJoined(e: StateEvent) {
    e.eventType == "m.room.member" && e.membership == "join"
  }

  /** What follows the first colon of a Matrix id. */
  function Domain(id: string): Option<string> {
    if id == "" then None
    else if id[0] == ':' then Some(id[1..])
    else Domain(id[1..])
  }

  /** The id is a local part without a colon, a colon, and the domain. */
  ghost predicate IsDomainOf(id: string, domain: string) {
    exists i :: 0 <= i < |id| && ':' !in id[..i] && id[i..] == [':'] + domain
  }

  /** An id has a domain exactly if it has a colon, and the domain is all that follows the first one. */
  lemma {:induction false} DomainIs(id: string)
    ensures Domain(id) == None <==> ':' !in id
    ensures forall domain :: Domain(id) == Some(domain) <==> IsDomainOf(id, domain)
  {
    if id != "" && id[0] == ':' {
      forall domain
        ensures Domain(id) == Some(domain) <==> IsDomainOf(id, domain)
      {
        DomainAtOnce(id, domain);
      }
    } else if id != "" {
      DomainIs(id[1..]);
      forall domain
        ensures IsDomainOf(id, domain) <==> IsDomainOf(id[1..], domain)
      {
        DomainOfTail(id, domain);
      }
    }
  }

  lemma DomainAtOnce(id: string, domain: string)
    requires id != "" && id[0] == ':'
    ensures IsDomainOf(id, domain) <==> domain == id[1..]
  {
    assert id[..0] == "" && id[0..] == [':'] + id[1..];
    forall i | 0 < i < |id|
      ensures ':' in id[..i]
    {
      assert id[..i][0] == ':';
    }
    if IsDomainOf(id, domain) {
      assert ([':'] + domain)[1..] == domain;
    }
  }

  lemma DomainOfTail(id: string, domain: string)
    requires id != "" && id[0] != ':'
    ensures IsDomainOf(id, domain) <==> IsDomainOf(id[1..], domain)
  {
    if i :| 0 <= i < |id| && ':' !in id[..i] && id[i..] == [':'] + domain {
      assert id[i] == ':' && id[1..][..i - 1] == id[..i][1..] && id[1..][i - 1..] == id[i..];
      assert IsDomainOf(id[1..], domain);
    }
    if i :| 0 <= i < |id[1..]| && ':' !in id[1..][..i] && id[1..][i..] == [':'] + domain {
      assert id[..i + 1] == [id[0]] + id[1..][..i] && id[i + 1..] == id[1..][i..];
      assert IsDomainOf(id, domain);
    }
  }

  ghost predicate MemberOf(e: StateEvent, host: string) {
    IsJoined(e) && Domain(e.stateKey) == Some(host)
  }

  ghost predicate IsMinDepth(events: seq<StateEvent>, host: string, depth: int) {
    && (exists e :: e in events && MemberOf(e, host) && e.depth == depth)
    && (forall e :: e in events && MemberOf(e, host) ==> depth <= e.depth)
  }

  /** One row per domain with a joined member, in ascending order of the domain's least depth. */
  ghost predicate IsQueryResult(events: seq<StateEvent>, hosts: seq<string>) {
    && NoDup(hosts)
    && (forall host :: host in hosts <==> exists e :: e in events && MemberOf(e, host))
    && (forall i, j, d, f :: 0 <= i < j < |hosts| && IsMinDepth(events, hosts[i], d) && IsMinDepth(events, hosts[j], f)
          ==> d <= f)
  }

  // ----- filters

  function OfType(events: seq<StateEvent>, eventType: string): seq<StateEvent> {
    if events == [] then []
    else OfType(events[..|events| - 1], eventType)
         + if events[|events| - 1].eventType == eventType then [events[|events| - 1]] else []
  }

  function WithMembership(events: seq<StateEvent>, membership: string): seq<StateEvent> {
    if events == [] then []
    else WithMembership(events[..|events| - 1], membership)
         + if events[|events| - 1].membership == membership then [events[|events| - 1]] else []
  }

  method FilterEventsBasedOnType(events: seq<StateEvent>, filterBy: string) returns (r: seq<StateEvent>)
    ensures r == OfType(events, filterBy)
  {
    r := [];
    for i := 0 to |events|
      invariant r == OfType(events[..i], filterBy)
    {
      assert events[..i + 1][..i] == events[..i];
      if events[i].eventType == filterBy {
        r := r + [events[i]];
      }
    }
    assert events[..|events|] == events;
  }

  method FilterEventsBasedOnMembership(events: seq<StateEvent>, filterBy: string) returns (r: seq<StateEvent>)
    ensures r == WithMembership(events, filterBy)
  {
    r := [];
    for i := 0 to |events|
      invariant r == WithMembership(events[..i], filterBy)
    {
      assert events[..i + 1][..i] == events[..i];
      if events[i].membership == filterBy {
        r := r + [events[i]];
      }
    }
    assert events[..|events|] == events;
  }

  /** Filtering two lists after one another is filtering them together: nothing changes place. */
  lemma {:induction false} FiltersKeepOrder(a: seq<StateEvent>, b: seq<StateEvent>, t: string)
    ensures OfType(a + b, t) == OfType(a, t) + OfType(b, t)
    ensures WithMembership(a + b, t) == WithMembership(a, t) + WithMembership(b, t)
    decreases |b|
  {
    if b == [] {
      assert a + b == a;
    } else {
      assert (a + b)[..|a + b| - 1] == a + b[..|b| - 1];
      FiltersKeepOrder(a, b[..|b| - 1], t);
    }
  }

  /** One event passes the filters exactly on its own type or membership. */
  lemma FiltersOfOne(e: StateEvent, t: string)
    ensures OfType([e], t) == if e.eventType == t then [e] else []
    ensures WithMembership([e], t) == if e.membership == t then [e] else []
  {
    assert [e][..0] == [];
  }

  lemma {:induction false} OfTypeHas(events: seq<StateEvent>, eventType: string, e: StateEvent)
    ensures e in OfType(events, eventType) <==> e in events && e.eventType == eventType
  {
    if events != [] {
      var front, last := events[..|events| - 1], events[|events| - 1];
      OfTypeHas(front, eventType, e);
      assert events == front + [last];
    }
  }

  lemma {:induction false} WithMembershipHas(events: seq<StateEvent>, membership: string, e: StateEvent)
    ensures e in WithMembership(events, membership) <==> e in events && e.membership == membership
  {
    if events != [] {
      var front, last := events[..|events| - 1], events[|events| - 1];
      WithMembershipHas(front, membership, e);
      assert events == front + [last];
    }
  }

  // ----- the stable sort by depth

  function Insert(sorted: seq<StateEvent>, e: StateEvent): seq<StateEvent> {
    if sorted == [] || sorted[|sorted| - 1].depth <= e.depth then sorted + [e]
    else Insert(sorted[..|sorted| - 1], e) + [sorted[|sorted| - 1]]
  }

  function SortByDepth(events: seq<StateEvent>): seq<StateEvent> {
    if events == [] then [] else Insert(SortByDepth(events[..|events| - 1]), events[|events| - 1])
  }

  ghost predicate Sorted(events: seq<StateEvent>) {
    forall i, j :: 0 <= i < j < |events| ==> events[i].depth <= events[j].depth
  }

  /** The events of one depth, in their order. */
  ghost function AtDepth(events: seq<StateEvent>, depth: int): seq<StateEvent> {
    if events == [] then []
    else AtDepth(events[..|events| - 1], depth)
         + if events[|events| - 1].depth == depth then [events[|events| - 1]] else []
  }

  lemma {:induction false} InsertAdds(sorted: seq<StateEvent>, e: StateEvent)
    ensures multiset(Insert(sorted, e)) == multiset(sorted) + multiset{e}
  {
    if sorted != [] && sorted[|sorted| - 1].depth > e.depth {
      var front, last := sorted[..|sorted| - 1], sorted[|sorted| - 1];
      InsertAdds(front, e);
      assert sorted == front + [last];
    }
  }

  lemma {:induction false} InsertHas(sorted: seq<StateEvent>, e: StateEvent, x: StateEvent)
    ensures x in Insert(sorted, e) <==> x in sorted || x == e
  {
    if sorted != [] && sorted[|sorted| - 1].depth > e.depth {
      var front, last := sorted[..|sorted| - 1], sorted[|sorted| - 1];
      InsertHas(front, e, x);
      assert sorted == front + [last];
    }
  }

  lemma SortedSnoc(sorted: seq<StateEvent>, last: StateEvent)
    requires Sorted(sorted) && forall x :: x in sorted ==> x.depth <= last.depth
    ensures Sorted(sorted + [last])
  {
  }

  lemma {:induction false} InsertSorts(sorted: seq<StateEvent>, e: StateEvent)
    requires Sorted(sorted)
    ensures Sorted(Insert(sorted, e))
  {
    if sorted != [] && sorted[|sorted| - 1].depth > e.depth {
      var front, last := sorted[..|sorted| - 1], sorted[|sorted| - 1];
      InsertSorts(front, e);
      forall x | x in Insert(front, e)
        ensures x.depth <= last.depth
      {
        InsertHas(front, e, x);
      }
      SortedSnoc(Insert(front, e), last);
    }
  }

  lemma {:induction false} InsertIsStable(sorted: seq<StateEvent>, e: StateEvent, depth: int)
    requires Sorted(sorted)
    ensures AtDepth(Insert(sorted, e), depth) == AtDepth(sorted, depth) + if e.depth == depth then [e] else []
  {
    if sorted == [] || sorted[|sorted| - 1].depth <= e.depth {
      assert (sorted + [e])[..|sorted|] == sorted;
    } else {
      var front, last := sorted[..|sorted| - 1], sorted[|sorted| - 1];
      InsertIsStable(front, e, depth);
      var inserted := Insert(front, e);
      assert (inserted + [last])[..|inserted|] == inserted;
      if last.depth == depth {
        assert e.depth != depth;
      }
    }
  }

  lemma {:induction false} SortSorts(events: seq<StateEvent>)
    ensures Sorted(SortByDepth(events))
  {
    if events != [] {
      var front, last := events[..|events| - 1], events[|events| - 1];
      SortSorts(front);
      InsertSorts(SortByDepth(front), last);
    }
  }

  lemma {:induction false} SortKeeps(events: seq<StateEvent>)
    ensures multiset(SortByDepth(events)) == multiset(events)
  {
    if events != [] {
      var front, last := events[..|events| - 1], events[|events| - 1];
      SortKeeps(front);
      InsertAdds(SortByDepth(front), last);
      assert events == front + [last];
    }
  }

  lemma {:induction false} SortKeepsDepths(events: seq<StateEvent>, depth: int)
    ensures AtDepth(SortByDepth(events), depth) == AtDepth(events, depth)
  {
    if events != [] {
      var front, last := events[..|events| - 1], events[|events| - 1];
      SortKeepsDepths(front, depth);
      SortSorts(front);
      InsertIsStable(SortByDepth(front), last, depth);
    }
  }

  /** The sort orders by depth, keeps every event, and keeps the order of events of equal depth. */
  lemma SortIsStable(events: seq<StateEvent>, depth: int)
    ensures Sorted(SortByDepth(events))
    ensures multiset(SortByDepth(events)) == multiset(events)
    ensures AtDepth(SortByDepth(events), depth) == AtDepth(events, depth)
  {
    SortSorts(events);
    SortKeeps(events);
    SortKeepsDepths(events, depth);
  }

  // ----- first occurrences

  /** In a list of first occurrences, the earlier of two entries occurs before the later one ever does. */
  lemma {:induction false} FirstOccurrencesInOrder(order: seq<string>, seen: set<string>, a: nat, b: nat) returns (p: nat)
    requires a < b < |Fresh(order, seen)|
    ensures p < |order| && order[p] == Fresh(order, seen)[a]
    ensures forall q :: 0 <= q <= p ==> order[q] != Fresh(order, seen)[b]
  {
    var x, tail, y := order[0], order[1..], Fresh(order, seen)[b];
    var r: nat;
    FreshHas(order, seen, y);
    FreshIsNoDup(order, seen);
    assert x !in seen ==> Fresh(order, seen)[0] == x;
    assert x != y;
    if x in seen {
      r := FirstOccurrencesInOrder(tail, seen, a, b);
    } else if a == 0 {
      return 0;
    } else {
      r := FirstOccurrencesInOrder(tail, seen + {x}, a - 1, b - 1);
    }
    p := r + 1;
    NotYetMet(order, r, y);
  }

  lemma NotYetMet(order: seq<string>, r: nat, y: string)
    requires r + 1 < |order| && order[0] != y && forall q :: 0 <= q <= r ==> order[1..][q] != y
    ensures forall q :: 0 <= q <= r + 1 ==> order[q] != y
  {
    assert forall q :: 1 <= q <= r + 1 ==> order[q] == order[1..][q - 1];
  }

  function Domains(members: seq<StateEvent>): seq<string>
    requires forall m :: m in members ==> Domain(m.stateKey).Some?
  {
    seq(|members|, i requires 0 <= i < |members| => Domain(members[i].stateKey).value)
  }

  lemma OrderedHosts(events: seq<StateEvent>, members: seq<StateEvent>)
    requires Sorted(members) && forall e :: e in members <==> e in events && IsJoined(e)
    requires forall m :: m in members ==> Domain(m.stateKey).Some?
    ensures IsQueryResult(events, Fresh(Domains(members), {}))
  {
    var order := Domains(members);
    var hosts := Fresh(order, {});
    FreshElems(order, {});
    forall host
      ensures host in hosts <==> exists e :: e in events && MemberOf(e, host)
    {
      assert host in hosts <==> host in Elems(hosts);
      if host in order {
        var i :| 0 <= i < |order| && order[i] == host;
        assert members[i] in members && MemberOf(members[i], host);
      }
      if e :| e in events && MemberOf(e, host) {
        var i :| 0 <= i < |members| && members[i] == e;
        assert order[i] == host;
      }
    }
    forall i, j, d, f | 0 <= i < j < |hosts| && IsMinDepth(events, hosts[i], d) && IsMinDepth(events, hosts[j], f)
      ensures d <= f
    {
      EarlierHostIsShallower(events, members, i, j, d, f);
    }
  }

  lemma EarlierHostIsShallower(events: seq<StateEvent>, members: seq<StateEvent>, i: nat, j: nat, d: int, f: int)
    requires Sorted(members) && forall e :: e in members <==> e in events && IsJoined(e)
    requires forall m :: m in members ==> Domain(m.stateKey).Some?
    requires i < j < |Fresh(Domains(members), {})|
    requires var hosts := Fresh(Domains(members), {});
             IsMinDepth(events, hosts[i], d) && IsMinDepth(events, hosts[j], f)
    ensures d <= f
  {
    var order := Domains(members);
    var hosts := Fresh(order, {});
    var p := FirstOccurrencesInOrder(order, {}, i, j);
    assert members[p] in members && MemberOf(members[p], hosts[i]);
    var e :| e in events && MemberOf(e, hosts[j]) && e.depth == f;
    var q :| 0 <= q < |members| && members[q] == e;
    assert order[q] == hosts[j];
  }

  lemma NextHost(members: seq<StateEvent>, i: nat)
    requires i < |members| && forall k :: 0 <= k <= i ==> Domain(members[k].stateKey).Some?
    ensures var kept, host := Fresh(Domains(members[..i]), {}), Domain(members[i].stateKey).value;
            Fresh(Domains(members[..i + 1]), {}) == if host in kept then kept else kept + [host]
  {
    var before, host := Domains(members[..i]), Domain(members[i].stateKey).value;
    assert Domains(members[..i + 1]) == before + [host];
    FreshSnoc(before, host, {});
    FreshHas(before, {}, host);
  }

  /** The loop that keeps each host the first time it is met. */
  method FirstHosts(members: seq<StateEvent>) returns (r: Result<seq<string>, HostError>)
    ensures r.Err? <==> exists m :: m in members && Domain(m.stateKey) == None
    ensures r.Ok? ==> r.value == Fresh(Domains(members), {})
  {
    var hostsOrdered: seq<string> := [];
    for i := 0 to |members|
      invariant forall k :: 0 <= k < i ==> Domain(members[k].stateKey).Some?
      invariant hostsOrdered == Fresh(Domains(members[..i]), {})
    {
      var host := Domain(members[i].stateKey);
      if host.None? {
        return Err(NoDomain);
      }
      NextHost(members, i);
      if host.value !in hostsOrdered {
        hostsOrdered := hostsOrdered + [host.value];
      }
    }
    assert members[..|members|] == members;
    return Ok(hostsOrdered);
  }

  lemma SortedMembers(stateEvents: seq<StateEvent>)
    ensures var members := SortByDepth(WithMembership(OfType(stateEvents, "m.room.member"), "join"));
            Sorted(members) && forall e :: e in members <==> e in stateEvents && IsJoined(e)
  {
    var joined := WithMembership(OfType(stateEvents, "m.room.member"), "join");
    SortIsStable(joined, 0);
    forall e
      ensures e in SortByDepth(joined) <==> e in stateEvents && IsJoined(e)
    {
      OfTypeHas(stateEvents, "m.room.member", e);
      WithMembershipHas(OfType(stateEvents, "m.room.member"), "join", e);
      assert e in SortByDepth(joined) <==> e in multiset(SortByDepth(joined));
      assert e in joined <==> e in multiset(joined);
    }
  }

  /** The host list is what the query returns; it fails only on a joined member without a domain. */
  method GetHostsInRoomOrdered(stateEvents: seq<StateEvent>) returns (r: Result<seq<string>, HostError>)
    ensures r.Err? <==> exists e :: e in stateEvents && IsJoined(e) && Domain(e.stateKey) == None
    ensures r.Ok? ==> IsQueryResult(stateEvents, r.value)
  {
    var roomMemberEvents := FilterEventsBasedOnType(stateEvents, "m.room.member");
    var joinedMemberEvents := FilterEventsBasedOnMembership(roomMemberEvents, "join");
    var members := SortByDepth(joinedMemberEvents);
    SortedMembers(stateEvents);
    r := FirstHosts(members);
    if r.Ok? {
      OrderedHosts(stateEvents, members);
    }
  }
}
