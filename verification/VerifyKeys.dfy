/** Merging a notary server's key sets into what is known of a server's keys. */
module VerifyKeys {
  import opened Collections

  type KeyId = string

  datatype KeyData = KeyData(key: Option<string>, expiredTs: Option<int>)

  /** One entry of a notary response; a missing field counts as empty or zero. */
  datatype KeySet = KeySet(verifyKeys: map<KeyId, KeyData>, oldVerifyKeys: map<KeyId, KeyData>, validUntilTs: Option<int>)

  datatype Known = Known(key: string, validUntilTs: int)

  function OrZero(o: Option<int>): int {
    if o.Some? then o.value else 0
  }

  function OrEmpty(o: Option<string>): string {
    if o.Some? then o.value else ""
  }

  function Max(a: int, b: int): int {
    if a >= b then a else b
  }

  // ----- the merge

  function MergeEntry(m: map<KeyId, Known>, id: KeyId, data: KeyData, ts: int): map<KeyId, Known> {
    if id in m then m[id := m[id].(validUntilTs := Max(ts, m[id].validUntilTs))]
    else m[id := Known(OrEmpty(data.key), ts)]
  }

  function MergeCurrent(m: map<KeyId, Known>, s: KeySet): map<KeyId, Known> {
    map id | id in m.Keys + s.verifyKeys.Keys ::
      if id !in s.verifyKeys then m[id] else MergeEntry(m, id, s.verifyKeys[id], OrZero(s.validUntilTs))[id]
  }

  function MergeOld(m: map<KeyId, Known>, s: KeySet): map<KeyId, Known> {
    map id | id in m.Keys + s.oldVerifyKeys.Keys ::
      if id !in s.oldVerifyKeys then m[id] else MergeEntry(m, id, s.oldVerifyKeys[id], OrZero(s.oldVerifyKeys[id].expiredTs))[id]
  }

  function MergeSet(m: map<KeyId, Known>, s: KeySet): map<KeyId, Known> {
    MergeOld(MergeCurrent(m, s), s)
  }

  function MergeAll(m: map<KeyId, Known>, sets: seq<KeySet>): map<KeyId, Known>
    decreases |sets|
  {
    if sets == [] then m else MergeAll(MergeSet(m, sets[0]), sets[1..])
  }

  // ----- what it means

  /** The validity timestamps one key set gives for a key, in its current and its old section; a missing
      one is zero. */
  function Stamps(s: KeySet, id: KeyId): set<int> {
    (if id in s.verifyKeys then (match s.validUntilTs case Some(ts) => {ts} case None => {0}) else {})
    + (if id in s.oldVerifyKeys then
         (match s.oldVerifyKeys[id].expiredTs case Some(ts) => {ts} case None => {0})
       else {})
  }

  function KnownStamps(m: map<KeyId, Known>, id: KeyId): set<int> {
    if id in m then {m[id].validUntilTs} else {}
  }

  /** `ts` is a timestamp given for the key somewhere. */
  ghost predicate Given(m: map<KeyId, Known>, sets: seq<KeySet>, id: KeyId, ts: int) {
    ts in KnownStamps(m, id) || exists s :: s in sets && ts in Stamps(s, id)
  }

  /** The ids known afterwards, and the validity of each, as a reader of the whole response would say. */
  ghost predicate IsMerge(m: map<KeyId, Known>, sets: seq<KeySet>, r: map<KeyId, Known>) {
    && (forall id :: id in r ==> Given(m, sets, id, r[id].validUntilTs))
    && (forall id, ts :: Given(m, sets, id, ts) ==> id in r && ts <= r[id].validUntilTs)
  }

  lemma MergeSetStamps(m: map<KeyId, Known>, s: KeySet, id: KeyId)
    ensures id in MergeSet(m, s) <==> KnownStamps(m, id) + Stamps(s, id) != {}
    ensures id in MergeSet(m, s) ==>
              && MergeSet(m, s)[id].validUntilTs in KnownStamps(m, id) + Stamps(s, id)
              && forall ts :: ts in KnownStamps(m, id) + Stamps(s, id) ==> ts <= MergeSet(m, s)[id].validUntilTs
  {
    assert id in m ==> m[id].validUntilTs in KnownStamps(m, id) + Stamps(s, id);
    assert id in s.verifyKeys ==> OrZero(s.validUntilTs) in KnownStamps(m, id) + Stamps(s, id);
    assert id in s.oldVerifyKeys ==> OrZero(s.oldVerifyKeys[id].expiredTs) in KnownStamps(m, id) + Stamps(s, id);
  }

  lemma GivenSplits(m: map<KeyId, Known>, sets: seq<KeySet>, id: KeyId, ts: int)
    requires sets != []
    ensures Given(m, sets, id, ts) <==>
            ts in KnownStamps(m, id) + Stamps(sets[0], id) || Given(map[], sets[1..], id, ts)
  {
    assert sets[0] in sets;
    assert forall s :: s in sets <==> s == sets[0] || s in sets[1..];
  }

  /** After merging any list of key sets, the known ids are all the ids that occur, and each validity
      timestamp is the largest given for the key anywhere. */
  lemma {:induction false} MergeIsMaximum(m: map<KeyId, Known>, sets: seq<KeySet>)
    ensures IsMerge(m, sets, MergeAll(m, sets))
    decreases |sets|
  {
    if sets != [] {
      var n, tail := MergeSet(m, sets[0]), sets[1..];
      MergeIsMaximum(n, tail);
      forall id, ts
        ensures Given(n, tail, id, ts) ==> Given(m, sets, id, ts)
        ensures Given(m, sets, id, ts) ==> exists t :: Given(n, tail, id, t) && ts <= t
      {
        GivenSplits(m, sets, id, ts);
        MergeSetStamps(m, sets[0], id);
        if Given(m, sets, id, ts) {
          if ts in KnownStamps(m, id) + Stamps(sets[0], id) {
            assert Given(n, tail, id, n[id].validUntilTs);
          } else {
            assert Given(n, tail, id, ts);
          }
        }
      }
    }
  }

  /** Two merges agree on a key when each given timestamp of one is bounded by a given one of the other. */
  lemma SameValidity(m: map<KeyId, Known>, sets: seq<KeySet>, n: map<KeyId, Known>, others: seq<KeySet>, id: KeyId)
    requires forall ts :: Given(m, sets, id, ts) <==> Given(n, others, id, ts)
    ensures var a, b := MergeAll(m, sets), MergeAll(n, others);
            (id in a <==> id in b) && (id in a ==> a[id].validUntilTs == b[id].validUntilTs)
  {
    MergeIsMaximum(m, sets);
    MergeIsMaximum(n, others);
    var a, b := MergeAll(m, sets), MergeAll(n, others);
    if id in a {
      assert Given(n, others, id, a[id].validUntilTs);
    }
    if id in b {
      assert Given(m, sets, id, b[id].validUntilTs);
    }
  }

  /** The same key sets in another order, or repeated, give the same ids and the same validity. */
  lemma OrderDoesNotMatter(m: map<KeyId, Known>, sets: seq<KeySet>, others: seq<KeySet>)
    requires Elems(sets) == Elems(others)
    ensures var a, b := MergeAll(m, sets), MergeAll(m, others);
            forall id :: (id in a <==> id in b) && (id in a ==> a[id].validUntilTs == b[id].validUntilTs)
  {
    forall s
      ensures s in sets <==> s in others
    {
      assert s in sets <==> s in Elems(sets);
    }
    forall id
      ensures var a, b := MergeAll(m, sets), MergeAll(m, others);
              (id in a <==> id in b) && (id in a ==> a[id].validUntilTs == b[id].validUntilTs)
    {
      SameValidity(m, sets, m, others, id);
    }
  }

  /** A known key keeps its value for ever, and its validity never goes down. */
  lemma {:induction false} KnownKeysStay(m: map<KeyId, Known>, sets: seq<KeySet>)
    ensures forall id :: id in m ==>
              id in MergeAll(m, sets) && MergeAll(m, sets)[id].key == m[id].key
              && m[id].validUntilTs <= MergeAll(m, sets)[id].validUntilTs
    decreases |sets|
  {
    if sets != [] {
      KnownKeysStay(MergeSet(m, sets[0]), sets[1..]);
      forall id | id in m
        ensures id in MergeSet(m, sets[0]) && MergeSet(m, sets[0])[id].key == m[id].key
        ensures m[id].validUntilTs <= MergeSet(m, sets[0])[id].validUntilTs
      {
      }
    }
  }

  ghost predicate Mentions(s: KeySet, id: KeyId) {
    id in s.verifyKeys || id in s.oldVerifyKeys
  }

  /** The value one key set gives for a key: that of its current section if it is there, else that of the
      old one; a missing one is empty. */
  ghost predicate GivesKey(s: KeySet, id: KeyId, key: string)
    requires Mentions(s, id)
  {
    var data := if id in s.verifyKeys then s.verifyKeys[id] else s.oldVerifyKeys[id];
    match data.key case Some(value) => key == value case None => key == ""
  }

  /** Set `i` is the first to mention the key and gives it this value. */
  ghost predicate FirstGives(sets: seq<KeySet>, id: KeyId, key: string, i: int) {
    && 0 <= i < |sets| && Mentions(sets[i], id) && GivesKey(sets[i], id, key)
    && forall j :: 0 <= j < i ==> !Mentions(sets[j], id)
  }

  lemma NewKeyOfSet(m: map<KeyId, Known>, s: KeySet, id: KeyId)
    requires id !in m
    ensures id in MergeSet(m, s) <==> Mentions(s, id)
    ensures Mentions(s, id) ==> GivesKey(s, id, MergeSet(m, s)[id].key)
  {
  }

  /** A key that was not known gets the value of the first key set that mentions it, and keeps it. */
  lemma {:induction false} NewKeysAreFirstGiven(m: map<KeyId, Known>, sets: seq<KeySet>, id: KeyId)
    requires id !in m && id in MergeAll(m, sets)
    ensures exists i :: FirstGives(sets, id, MergeAll(m, sets)[id].key, i)
    decreases |sets|
  {
    var n, tail := MergeSet(m, sets[0]), sets[1..];
    NewKeyOfSet(m, sets[0], id);
    var key := MergeAll(m, sets)[id].key;
    if Mentions(sets[0], id) {
      KnownKeysStay(n, tail);
      assert FirstGives(sets, id, key, 0);
    } else {
      NewKeysAreFirstGiven(n, tail, id);
      var i :| FirstGives(tail, id, key, i);
      assert FirstGives(sets, id, key, i + 1);
    }
  }

  /** Merging the same response again changes nothing. */
  lemma MergeIsIdempotent(m: map<KeyId, Known>, sets: seq<KeySet>)
    ensures MergeAll(MergeAll(m, sets), sets) == MergeAll(m, sets)
  {
    var a := MergeAll(m, sets);
    var b := MergeAll(a, sets);
    KnownKeysStay(a, sets);
    forall id | id in b
      ensures id in a && b[id].validUntilTs <= a[id].validUntilTs
    {
      AgainIsBounded(m, sets, id);
    }
    assert b.Keys == a.Keys;
    assert forall id :: id in a ==> b[id] == a[id];
  }

  lemma AgainIsBounded(m: map<KeyId, Known>, sets: seq<KeySet>, id: KeyId)
    requires id in MergeAll(MergeAll(m, sets), sets)
    ensures var a := MergeAll(m, sets);
            id in a && MergeAll(a, sets)[id].validUntilTs <= a[id].validUntilTs
  {
    var a := MergeAll(m, sets);
    MergeIsMaximum(m, sets);
    MergeIsMaximum(a, sets);
    var ts := MergeAll(a, sets)[id].validUntilTs;
    assert Given(a, sets, id, ts);
    if ts !in KnownStamps(a, id) {
      assert Given(m, sets, id, ts);
    }
  }

  // ----- containers updated in place

  class KeyContainer {
    const key: string
    var validUntilTs: int

    /** An old key, for which no validity is passed, takes its expiry. */
    constructor (keyData: KeyData, validUntilTs: Option<int>)
      ensures this.key == OrEmpty(keyData.key)
      ensures this.validUntilTs == if validUntilTs.Some? then validUntilTs.value else OrZero(keyData.expiredTs)
    {
      this.key := OrEmpty(keyData.key);
      this.validUntilTs := if validUntilTs.Some? then validUntilTs.value else OrZero(keyData.expiredTs);
    }
  }

  class ServerVerifyKeys {
    var verifyKeys: map<KeyId, KeyContainer>

    /** Every key has a container of its own. */
    ghost predicate Valid()
      reads this
    {
      forall a, b :: a in verifyKeys && b in verifyKeys && a != b ==> verifyKeys[a] != verifyKeys[b]
    }

    ghost function View(): map<KeyId, Known>
      reads this, verifyKeys.Values
    {
      map id | id in verifyKeys :: Known(verifyKeys[id].key, verifyKeys[id].validUntilTs)
    }

    constructor ()
      ensures Valid() && View() == map[]
    {
      verifyKeys := map[];
    }

    /** Take in one entry: the later validity wins, and an unknown key gets a container of its own. */
    method UpdateEntry(id: KeyId, data: KeyData, ts: int, container: Option<int>)
      requires Valid()
      requires ts == if container.Some? then container.value else OrZero(data.expiredTs)
      modifies this, verifyKeys.Values
      ensures Valid() && View() == MergeEntry(old(View()), id, data, ts)
      ensures fresh(verifyKeys.Values - old(verifyKeys.Values))
    {
      if id in verifyKeys {
        verifyKeys[id].validUntilTs := Max(ts, verifyKeys[id].validUntilTs);
      } else {
        var c := new KeyContainer(data, container);
        verifyKeys := verifyKeys[id := c];
      }
    }

    /** The loop over the current keys. */
    method UpdateCurrent(data: KeySet)
      requires Valid()
      modifies this, verifyKeys.Values
      ensures Valid() && View() == MergeCurrent(old(View()), data)
      ensures fresh(verifyKeys.Values - old(verifyKeys.Values))
    {
      var validUntilTs := OrZero(data.validUntilTs);
      ghost var before := View();
      var todo := data.verifyKeys.Keys;
      while todo != {}
        invariant Valid() && todo <= data.verifyKeys.Keys
        invariant View() == MergeCurrent(before, data.(verifyKeys := data.verifyKeys - todo))
        invariant fresh(verifyKeys.Values - old(verifyKeys.Values))
      {
        var id :| id in todo;
        CurrentStep(before, data, todo, id);
        UpdateEntry(id, data.verifyKeys[id], validUntilTs, Some(validUntilTs));
        todo := todo - {id};
      }
      assert data.verifyKeys - {} == data.verifyKeys;
    }

    /** The loop over the old keys. */
    method UpdateOld(data: KeySet)
      requires Valid()
      modifies this, verifyKeys.Values
      ensures Valid() && View() == MergeOld(old(View()), data)
      ensures fresh(verifyKeys.Values - old(verifyKeys.Values))
    {
      ghost var before := View();
      var todo := data.oldVerifyKeys.Keys;
      while todo != {}
        invariant Valid() && todo <= data.oldVerifyKeys.Keys
        invariant View() == MergeOld(before, data.(oldVerifyKeys := data.oldVerifyKeys - todo))
        invariant fresh(verifyKeys.Values - old(verifyKeys.Values))
      {
        var id :| id in todo;
        OldStep(before, data, todo, id);
        UpdateEntry(id, data.oldVerifyKeys[id], OrZero(data.oldVerifyKeys[id].expiredTs), None);
        todo := todo - {id};
      }
      assert data.oldVerifyKeys - {} == data.oldVerifyKeys;
    }

    method UpdateKeyDataFromDict(data: KeySet)
      requires Valid()
      modifies this, verifyKeys.Values
      ensures Valid() && View() == MergeSet(old(View()), data)
      ensures fresh(verifyKeys.Values - old(verifyKeys.Values))
    {
      UpdateCurrent(data);
      UpdateOld(data);
    }

    method UpdateKeyDataFromList(serverKeys: seq<KeySet>)
      requires Valid()
      modifies this, verifyKeys.Values
      ensures Valid() && View() == MergeAll(old(View()), serverKeys)
    {
      ghost var before := View();
      for i := 0 to |serverKeys|
        invariant Valid()
        invariant MergeAll(View(), serverKeys[i..]) == MergeAll(before, serverKeys)
        invariant fresh(verifyKeys.Values - old(verifyKeys.Values))
      {
        assert serverKeys[i..][1..] == serverKeys[i + 1..];
        UpdateKeyDataFromDict(serverKeys[i]);
      }
    }
  }

  lemma CurrentStep(m: map<KeyId, Known>, s: KeySet, todo: set<KeyId>, id: KeyId)
    requires id in todo && todo <= s.verifyKeys.Keys
    ensures MergeCurrent(m, s.(verifyKeys := s.verifyKeys - (todo - {id}))) ==
            MergeEntry(MergeCurrent(m, s.(verifyKeys := s.verifyKeys - todo)), id, s.verifyKeys[id], OrZero(s.validUntilTs))
  {
  }

  lemma OldStep(m: map<KeyId, Known>, s: KeySet, todo: set<KeyId>, id: KeyId)
    requires id in todo && todo <= s.oldVerifyKeys.Keys
    ensures MergeOld(m, s.(oldVerifyKeys := s.oldVerifyKeys - (todo - {id}))) ==
            MergeEntry(MergeOld(m, s.(oldVerifyKeys := s.oldVerifyKeys - todo)), id, s.oldVerifyKeys[id],
                       OrZero(s.oldVerifyKeys[id].expiredTs))
  {
  }
}
