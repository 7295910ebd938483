/** Following CNAME records inside one DNS answer, by iteration and by recursion. */
module Cname {
  import opened Collections

  type Name = string

  /** The CNAME record sets of an answer section, by owner name. */
  type Answer = map<Name, seq<Name>>

  /** A record set that is present holds at least one record. */
  ghost predicate WellFormed(answer: Answer) {
    forall name :: name in answer ==> answer[name] != []
  }

  function Last(targets: seq<Name>): Name
    requires targets != []
  {
    targets[|targets| - 1]
  }

  /** The name after following `n` records, if there are that many. */
  ghost function Walk(answer: Answer, name: Name, n: nat): Option<Name>
    decreases n
  {
    if n == 0 then Some(name)
    else if name in answer && answer[name] != [] then Walk(answer, Last(answer[name]), n - 1)
    else None
  }

  ghost predicate EndsAfter(answer: Answer, name: Name, n: nat) {
    Walk(answer, name, n).Some? && Walk(answer, name, n).value !in answer
  }

  ghost predicate Halts(answer: Answer, name: Name) {
    exists n: nat :: EndsAfter(answer, name, n)
  }

  /** Following the records from `name` ends at `last`. */
  ghost predicate EndsAt(answer: Answer, name: Name, last: Name) {
    exists n: nat :: EndsAfter(answer, name, n) && Walk(answer, name, n) == Some(last)
  }

  // ----- the iterative follower

  /** The loop ends on exactly the answers whose chain does; `steps` is the length of the chain. */
  method FollowIteratively(answer: Answer, serverName: Name, ghost steps: nat) returns (lastHostFound: Name)
    requires WellFormed(answer) && EndsAfter(answer, serverName, steps)
    ensures EndsAt(answer, serverName, lastHostFound)
  {
    lastHostFound := serverName;
    ghost var left := steps;
    while lastHostFound in answer
      invariant EndsAfter(answer, lastHostFound, left)
      invariant Walk(answer, lastHostFound, left) == Walk(answer, serverName, steps)
      decreases left
    {
      var targets := answer[lastHostFound];
      for i := 0 to |targets|
        invariant i > 0 ==> lastHostFound == targets[i - 1]
      {
        lastHostFound := targets[i];
      }
      left := left - 1;
    }
  }

  // ----- when the loop ends

  lemma {:induction false} WalkOn(answer: Answer, name: Name, m: nat, n: nat)
    requires Walk(answer, name, m).Some?
    ensures Walk(answer, name, m + n) == Walk(answer, Walk(answer, name, m).value, n)
    decreases m
  {
    if m > 0 {
      WalkOn(answer, Last(answer[name]), m - 1, n);
    }
  }

  lemma OneMore(answer: Answer, name: Name, n: nat)
    requires WellFormed(answer) && Walk(answer, name, n).Some?
    ensures Walk(answer, name, n + 1).Some? <==> Walk(answer, name, n).value in answer
  {
    WalkOn(answer, name, n, 1);
    var here := Walk(answer, name, n).value;
    assert here in answer ==> Walk(answer, here, 1) == Walk(answer, Last(answer[here]), 0);
  }

  /** As long as the chain has not ended it can be walked. */
  lemma {:induction false} UnendedWalk(answer: Answer, name: Name, n: nat)
    requires WellFormed(answer) && forall k :: 0 <= k < n ==> !EndsAfter(answer, name, k)
    ensures Walk(answer, name, n).Some?
  {
    if n > 0 {
      UnendedWalk(answer, name, n - 1);
      OneMore(answer, name, n - 1);
      assert !EndsAfter(answer, name, n - 1);
    }
  }

  /** The names met before step `n`. */
  ghost function Visited(answer: Answer, name: Name, n: nat): set<Name> {
    if n == 0 then {}
    else Visited(answer, name, n - 1) + if Walk(answer, name, n - 1).Some? then {Walk(answer, name, n - 1).value} else {}
  }

  /** The walk is at the same name after `i` and after `j` steps. */
  ghost predicate Repeats(answer: Answer, name: Name, i: nat, j: nat) {
    i < j && Walk(answer, name, i).Some? && Walk(answer, name, i) == Walk(answer, name, j)
  }

  lemma {:induction false} VisitedAt(answer: Answer, name: Name, n: nat, x: Name) returns (i: nat)
    requires x in Visited(answer, name, n)
    ensures i < n && Walk(answer, name, i) == Some(x)
  {
    if x in Visited(answer, name, n - 1) {
      i := VisitedAt(answer, name, n - 1, x);
    } else {
      i := n - 1;
    }
  }

  lemma {:induction false} Pigeonhole(answer: Answer, name: Name, n: nat)
    requires WellFormed(answer) && forall k :: 0 <= k < n ==> !EndsAfter(answer, name, k)
    requires forall i, j :: 0 <= i < j < n ==> !Repeats(answer, name, i, j)
    ensures Visited(answer, name, n) <= answer.Keys && |Visited(answer, name, n)| == n
  {
    if n > 0 {
      Pigeonhole(answer, name, n - 1);
      UnendedWalk(answer, name, n - 1);
      var x := Walk(answer, name, n - 1).value;
      assert !EndsAfter(answer, name, n - 1);
      if x in Visited(answer, name, n - 1) {
        var i := VisitedAt(answer, name, n - 1, x);
        assert Repeats(answer, name, i, n - 1);
      }
    }
  }

  /** Nothing comes after the end of a chain. */
  lemma NothingAfterEnd(answer: Answer, name: Name, n: nat, m: nat)
    requires EndsAfter(answer, name, n) && n < m
    ensures Walk(answer, name, m) == None
  {
    WalkOn(answer, name, n, m - n);
  }

  lemma RepeatsGoOn(answer: Answer, name: Name, i: nat, j: nat, n: nat)
    requires Repeats(answer, name, i, j)
    ensures !EndsAfter(answer, name, n)
  {
    if EndsAfter(answer, name, n) {
      if n < i {
        NothingAfterEnd(answer, name, n, i);
      } else {
        WalkOn(answer, name, i, n - i);
        WalkOn(answer, name, j, n - i);
        NothingAfterEnd(answer, name, n, j + (n - i));
      }
    }
  }

  /** The iterative follower ends exactly when it never meets a name twice, and then after at most as
      many records as the answer has names. */
  lemma HaltsIffNoNameRepeats(answer: Answer, name: Name)
    requires WellFormed(answer)
    ensures Halts(answer, name) <==> forall i: nat, j: nat :: !Repeats(answer, name, i, j)
    ensures Halts(answer, name) <==> exists n: nat :: n <= |answer| && EndsAfter(answer, name, n)
  {
    if n: nat :| EndsAfter(answer, name, n) {
      forall i: nat, j: nat
        ensures !Repeats(answer, name, i, j)
      {
        if Repeats(answer, name, i, j) {
          RepeatsGoOn(answer, name, i, j, n);
        }
      }
    }
    if forall i: nat, j: nat :: !Repeats(answer, name, i, j) {
      EndsInTime(answer, name);
    }
  }

  lemma EndsInTime(answer: Answer, name: Name)
    requires WellFormed(answer) && forall i: nat, j: nat :: !Repeats(answer, name, i, j)
    ensures exists n: nat :: n <= |answer| && EndsAfter(answer, name, n)
  {
    var size := |answer|;
    if forall n: nat :: n <= size ==> !EndsAfter(answer, name, n) {
      Pigeonhole(answer, name, size + 1);
      SubsetIsNoLarger(Visited(answer, name, size + 1), answer.Keys);
    }
  }

  // ----- the recursive follower

  function Targets(answer: Answer, name: Name): seq<Name> {
    if name in answer then answer[name] else []
  }

  /** The recursion, which follows every record of a set, is at most `depth` calls deep below the first. */
  ghost predicate EndsWithin(answer: Answer, name: Name, depth: nat)
    decreases depth
  {
    forall target :: target in Targets(answer, name) ==> depth > 0 && EndsWithin(answer, target, depth - 1)
  }

  ghost predicate RecursionHalts(answer: Answer, name: Name) {
    exists depth: nat :: EndsWithin(answer, name, depth)
  }

  method ResolveRecursively(answer: Answer, serverName: Name, ghost depth: nat) returns (lastCnameFound: Name)
    requires WellFormed(answer) && EndsWithin(answer, serverName, depth)
    ensures EndsAt(answer, serverName, lastCnameFound)
    decreases depth
  {
    lastCnameFound := serverName;
    if serverName in answer {
      var targets := answer[serverName];
      for i := 0 to |targets|
        invariant i > 0 ==> EndsAt(answer, targets[i - 1], lastCnameFound)
      {
        assert targets[i] in Targets(answer, serverName);
        lastCnameFound := ResolveRecursively(answer, targets[i], depth - 1);
      }
      ghost var n: nat :| EndsAfter(answer, Last(targets), n) && Walk(answer, Last(targets), n) == Some(lastCnameFound);
      assert Walk(answer, serverName, n + 1) == Walk(answer, Last(targets), n);
      assert EndsAfter(answer, serverName, n + 1);
    } else {
      assert EndsAfter(answer, serverName, 0);
    }
  }

  /** A chain has one end: where both followers end, they agree, on a name without a CNAME record. */
  lemma FollowersAgree(answer: Answer, name: Name, a: Name, b: Name)
    requires EndsAt(answer, name, a) && EndsAt(answer, name, b)
    ensures a == b && a !in answer
  {
    var m: nat :| EndsAfter(answer, name, m) && Walk(answer, name, m) == Some(a);
    var n: nat :| EndsAfter(answer, name, n) && Walk(answer, name, n) == Some(b);
    if m < n {
      NothingAfterEnd(answer, name, m, n);
    } else if n < m {
      NothingAfterEnd(answer, name, n, m);
    }
  }

  // ----- when the recursion ends

  /** Each name of the path is a target of the one before. */
  ghost predicate Path(answer: Answer, p: seq<Name>) {
    p != [] && forall i :: 0 <= i < |p| - 1 ==> p[i + 1] in Targets(answer, p[i])
  }

  /** The path comes back at its end to the name at `i`: that name, reached from the first, reaches itself. */
  ghost predicate Lasso(answer: Answer, p: seq<Name>, i: nat) {
    Path(answer, p) && i < |p| - 1 && p[i] == p[|p| - 1]
  }

  ghost predicate ReachesCycle(answer: Answer, name: Name) {
    exists p, i :: Lasso(answer, p, i) && p[0] == name
  }

  /** A path of more links than the recursion is deep. */
  lemma {:induction false} DeepPath(answer: Answer, name: Name, depth: nat) returns (p: seq<Name>)
    requires !EndsWithin(answer, name, depth)
    ensures Path(answer, p) && p[0] == name && |p| == depth + 2
    decreases depth
  {
    var target :| target in Targets(answer, name) && !(depth > 0 && EndsWithin(answer, target, depth - 1));
    var rest := [target];
    if depth > 0 {
      rest := DeepPath(answer, target, depth - 1);
    }
    p := [name] + rest;
    forall i | 0 <= i < |p| - 1
      ensures p[i + 1] in Targets(answer, p[i])
    {
      if i > 0 {
        assert p[i] == rest[i - 1] && p[i + 1] == rest[i - 1 + 1];
      }
    }
  }

  /** All names of a path but the last own records. */
  lemma OwnersAreKeys(answer: Answer, p: seq<Name>)
    requires Path(answer, p)
    ensures Elems(p[..|p| - 1]) <= answer.Keys
  {
    forall x | x in p[..|p| - 1]
      ensures x in answer.Keys
    {
      var i :| 0 <= i < |p| - 1 && p[i] == x;
      assert p[i + 1] in Targets(answer, p[i]);
    }
  }

  /** A path that meets a name twice holds a lasso. */
  lemma CutLasso(answer: Answer, p: seq<Name>, i: nat, j: nat)
    requires Path(answer, p) && i < j < |p| && p[i] == p[j]
    ensures Lasso(answer, p[..j + 1], i)
  {
    var q := p[..j + 1];
    forall k | 0 <= k < |q| - 1
      ensures q[k + 1] in Targets(answer, q[k])
    {
      assert q[k] == p[k] && q[k + 1] == p[k + 1];
    }
  }

  lemma TooDeepIsCyclic(answer: Answer, name: Name)
    requires !EndsWithin(answer, name, |answer|)
    ensures ReachesCycle(answer, name)
  {
    var p := DeepPath(answer, name, |answer|);
    var owners := p[..|p| - 1];
    OwnersAreKeys(answer, p);
    TooLongRepeats(owners, answer.Keys);
    var i, j :| 0 <= i < j < |owners| && owners[i] == owners[j];
    CutLasso(answer, p, i, j);
    assert p[..j + 1][0] == name;
  }

  /** Nobody on a lasso ever ends. */
  lemma {:induction false} LassoNeverEnds(answer: Answer, p: seq<Name>, i: nat, k: nat, depth: nat)
    requires Lasso(answer, p, i) && k < |p|
    ensures !EndsWithin(answer, p[k], depth)
    decreases depth
  {
    var here := if k == |p| - 1 then i else k;
    assert p[here + 1] in Targets(answer, p[here]) && p[here] == p[k];
    if depth > 0 {
      LassoNeverEnds(answer, p, i, here + 1, depth - 1);
    }
  }

  /** The recursion ends exactly when it reaches no name that reaches itself, and then it is no deeper
      than the answer has names. */
  lemma RecursionHaltsIffNoCycle(answer: Answer, name: Name)
    ensures RecursionHalts(answer, name) <==> !ReachesCycle(answer, name)
    ensures RecursionHalts(answer, name) <==> EndsWithin(answer, name, |answer|)
  {
    if depth: nat :| EndsWithin(answer, name, depth) {
      if p, i :| Lasso(answer, p, i) && p[0] == name {
        LassoNeverEnds(answer, p, i, 0, depth);
      }
    }
    if !EndsWithin(answer, name, |answer|) {
      TooDeepIsCyclic(answer, name);
    }
  }

  // ----- how the two compare

  /** Where the recursion ends, the loop ends as well. */
  lemma {:induction false} LoopEndsIfRecursionDoes(answer: Answer, name: Name, depth: nat)
    requires WellFormed(answer) && EndsWithin(answer, name, depth)
    ensures Halts(answer, name)
    decreases depth
  {
    if name in answer {
      var next := Last(answer[name]);
      assert next in Targets(answer, name);
      LoopEndsIfRecursionDoes(answer, next, depth - 1);
      var n: nat :| EndsAfter(answer, next, n);
      assert Walk(answer, name, n + 1) == Walk(answer, next, n);
      assert EndsAfter(answer, name, n + 1);
    } else {
      assert EndsAfter(answer, name, 0);
    }
  }

  /** The loop looks at the last record of a set only: here it ends and the recursion does not. */
  lemma LoopMayEndAlone()
    ensures var answer := map["n" := ["n", "m"]];
            WellFormed(answer) && Halts(answer, "n") && !RecursionHalts(answer, "n")
  {
    var answer: Answer := map["n" := ["n", "m"]];
    assert Walk(answer, "m", 0) == Some("m") && Walk(answer, "n", 1) == Walk(answer, "m", 0);
    assert EndsAfter(answer, "n", 1);
    var p := ["n", "n"];
    assert answer["n"][0] == "n";
    assert Lasso(answer, p, 0) && p[0] == "n";
    RecursionHaltsIffNoCycle(answer, "n");
  }

  /** Every record points to a name of lower rank: no cycles anywhere in the answer. */
  ghost predicate Acyclic(answer: Answer, rank: Name -> nat) {
    forall name, target :: name in answer && target in answer[name] ==> rank(target) < rank(name)
  }

  /** On an acyclic answer both followers end, whatever name they start from. */
  lemma AcyclicAnswersEnd(answer: Answer, name: Name, rank: Name -> nat)
    requires WellFormed(answer) && Acyclic(answer, rank)
    ensures EndsWithin(answer, name, rank(name)) && Halts(answer, name)
  {
    RankBoundsDepth(answer, name, rank, rank(name));
    LoopEndsIfRecursionDoes(answer, name, rank(name));
  }

  lemma {:induction false} RankBoundsDepth(answer: Answer, name: Name, rank: Name -> nat, depth: nat)
    requires Acyclic(answer, rank) && rank(name) <= depth
    ensures EndsWithin(answer, name, depth)
    decreases depth
  {
    forall target | target in Targets(answer, name)
      ensures depth > 0 && EndsWithin(answer, target, depth - 1)
    {
      assert rank(target) < rank(name);
      RankBoundsDepth(answer, target, rank, depth - 1);
    }
  }
}
