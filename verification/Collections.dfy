/** Small facts about sequences and sets shared by the other modules. */
module Collections {

  datatype Option<+T> = None | Some(value: T)

  datatype Result<+T, +E> = Ok(value: T) | Err(error: E)

  function Elems<T>(s: seq<T>): set<T> {
    set x | x in s
  }

  ghost predicate NoDup<T>(s: seq<T>) {
    forall i, j :: 0 <= i < j < |s| ==> s[i] != s[j]
  }

  lemma ElemsOfConcat<T>(a: seq<T>, b: seq<T>)
    ensures Elems(a + b) == Elems(a) + Elems(b)
  {
    assert forall x :: x in a + b <==> x in a || x in b;
  }

  lemma SubsetIsNoLarger<T>(a: set<T>, b: set<T>)
    requires a <= b
    ensures |a| <= |b|
  {
    assert b == a + (b - a);
  }

  lemma NoDupConcat<T>(a: seq<T>, b: seq<T>)
    requires NoDup(a) && NoDup(b) && Elems(a) !! Elems(b)
    ensures NoDup(a + b) && Elems(a + b) == Elems(a) + Elems(b)
  {
    ElemsOfConcat(a, b);
    forall i, j | 0 <= i < j < |a + b|
      ensures (a + b)[i] != (a + b)[j]
    {
      if i < |a| <= j {
        assert a[i] in Elems(a) && b[j - |a|] in Elems(b);
      }
    }
  }

  /** A duplicate-free sequence is as long as the set of its elements. */
  lemma {:induction false} NoDupLength<T>(s: seq<T>)
    requires NoDup(s)
    ensures |Elems(s)| == |s|
  {
    if s != [] {
      var front, last := s[..|s| - 1], s[|s| - 1];
      NoDupLength(front);
      assert s == front + [last];
      assert Elems(s) == Elems(front) + {last};
      assert last !in Elems(front);
    }
  }

  lemma TooLongRepeats<T>(s: seq<T>, all: set<T>)
    requires Elems(s) <= all && |s| > |all|
    ensures !NoDup(s)
  {
    SubsetIsNoLarger(Elems(s), all);
    if NoDup(s) {
      NoDupLength(s);
    }
  }

  /** The elements of `order` that a loop guarded by a "seen" set lets through, in order. */
  function Fresh<T(==)>(order: seq<T>, seen: set<T>): seq<T> {
    if order == [] then []
    else if order[0] in seen then Fresh(order[1..], seen)
    else [order[0]] + Fresh(order[1..], seen + {order[0]})
  }

  lemma {:induction false} FreshHas<T>(order: seq<T>, seen: set<T>, x: T)
    ensures x in Fresh(order, seen) <==> x in order && x !in seen
  {
    if order != [] {
      var y := order[0];
      assert x in order <==> x == y || x in order[1..];
      FreshHas(order[1..], if y in seen then seen else seen + {y}, x);
    }
  }

  lemma {:induction false} FreshIsNoDup<T>(order: seq<T>, seen: set<T>)
    ensures NoDup(Fresh(order, seen))
  {
    if order != [] {
      var y := order[0];
      if y in seen {
        FreshIsNoDup(order[1..], seen);
      } else {
        FreshIsNoDup(order[1..], seen + {y});
        FreshHas(order[1..], seen + {y}, y);
      }
    }
  }

  lemma FreshElems<T>(order: seq<T>, seen: set<T>)
    ensures Elems(Fresh(order, seen)) == Elems(order) - seen
    ensures NoDup(Fresh(order, seen))
    ensures |Fresh(order, seen)| == |Elems(order) - seen|
  {
    var kept := Fresh(order, seen);
    forall x | x in Elems(kept)
      ensures x in Elems(order) - seen
    {
      FreshHas(order, seen, x);
    }
    forall x | x in Elems(order) - seen
      ensures x in Elems(kept)
    {
      FreshHas(order, seen, x);
    }
    FreshIsNoDup(order, seen);
    NoDupLength(kept);
  }

  lemma FreshSize<T>(order: seq<T>, seen: set<T>)
    ensures |seen + Elems(order)| == |seen| + |Fresh(order, seen)|
  {
    FreshElems(order, seen);
    assert seen + Elems(order) == seen + (Elems(order) - seen);
  }

  /** Letting one more element through a guarded loop. */
  lemma {:induction false} FreshSnoc<T>(order: seq<T>, x: T, seen: set<T>)
    ensures Fresh(order + [x], seen) ==
            Fresh(order, seen) + if x in seen + Elems(order) then [] else [x]
  {
    if order == [] {
      assert Elems(order) == {};
      assert [x][1..] == [];
    } else {
      var y := order[0];
      assert (order + [x])[1..] == order[1..] + [x];
      assert Elems(order) == {y} + Elems(order[1..]);
      if y in seen {
        FreshSnoc(order[1..], x, seen);
        assert seen + Elems(order) == seen + Elems(order[1..]);
      } else {
        FreshSnoc(order[1..], x, seen + {y});
        assert seen + Elems(order) == (seen + {y}) + Elems(order[1..]);
      }
    }
  }

  function Reverse<T>(s: seq<T>): seq<T> {
    seq(|s|, i requires 0 <= i < |s| => s[|s| - 1 - i])
  }
}
