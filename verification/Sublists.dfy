/** What it means that a list is the wanted part of another, independent of how it was filtered. */
module Sublists {

  /** at[k] is the place in `all` of the k-th entry of `part`, and every wanted entry has a place. */
  ghost predicate Places<T>(all: seq<T>, wanted: T -> bool, part: seq<T>, at: seq<int>) {
    && |at| == |part| && (all == [] ==> part == [])
    && (forall k :: 0 <= k < |at| ==> 0 <= at[k] < |all| && part[k] == all[at[k]] && wanted(all[at[k]]))
    && (forall j, k :: 0 <= j < k < |at| ==> at[j] < at[k])
    && (forall i {:trigger i in at} :: 0 <= i < |all| && wanted(all[i]) ==> i in at)
  }

  /** `part` is the wanted entries of `all`, each as often as it stands there, in the same order. */
  ghost predicate IsPart<T>(all: seq<T>, wanted: T -> bool, part: seq<T>) {
    exists at :: Places(all, wanted, part, at)
  }

  lemma NoPart<T>(wanted: T -> bool)
    ensures IsPart([], wanted, [])
  {
    assert Places([], wanted, [], []);
  }

  lemma PlacesAppend<T>(front: seq<T>, last: T, wanted: T -> bool, part: seq<T>, at: seq<int>)
    requires Places(front, wanted, part, at) && wanted(last)
    ensures Places(front + [last], wanted, part + [last], at + [|front|])
  {
    var all, more := front + [last], at + [|front|];
    forall i | 0 <= i < |all| && wanted(all[i]) ensures i in more {
      if i < |front| {
        assert i in at;
      } else {
        assert more[|at|] == i;
      }
    }
  }

  lemma PlacesSkip<T>(front: seq<T>, last: T, wanted: T -> bool, part: seq<T>, at: seq<int>)
    requires Places(front, wanted, part, at) && !wanted(last)
    ensures Places(front + [last], wanted, part, at)
  {
    var all := front + [last];
    forall i | 0 <= i < |all| && wanted(all[i]) ensures i in at {
      assert i < |front| && all[i] == front[i];
    }
  }

  /** How a filter that goes on from the front adds to it. */
  lemma PartAppend<T>(front: seq<T>, last: T, wanted: T -> bool, part: seq<T>)
    requires IsPart(front, wanted, part)
    ensures IsPart(front + [last], wanted, part + if wanted(last) then [last] else [])
  {
    var at :| Places(front, wanted, part, at);
    if wanted(last) {
      PlacesAppend(front, last, wanted, part, at);
    } else {
      PlacesSkip(front, last, wanted, part, at);
      assert part + [] == part;
    }
  }

  lemma LastIsLargest(at: seq<int>, k: nat)
    requires k < |at| && forall i, j :: 0 <= i < j < |at| ==> at[i] < at[j]
    ensures at[k] <= at[|at| - 1]
  {}

  lemma PlacesFront<T>(all: seq<T>, wanted: T -> bool, part: seq<T>, at: seq<int>)
    requires all != [] && Places(all, wanted, part, at) && wanted(all[|all| - 1])
    ensures part != [] && part[|part| - 1] == all[|all| - 1]
    ensures Places(all[..|all| - 1], wanted, part[..|part| - 1], at[..|part| - 1])
  {
    var n := |all| - 1;
    assert n in at;
    var k :| 0 <= k < |at| && at[k] == n;
    LastIsLargest(at, k);
    assert k == 0 || at[0] < at[k];
    var less := at[..k];
    forall i | 0 <= i < n && wanted(all[..n][i]) ensures i in less {
      assert wanted(all[i]) && i in at;
      var j :| 0 <= j < |at| && at[j] == i;
      assert less[j] == i;
    }
  }

  lemma PartFront<T>(all: seq<T>, wanted: T -> bool, part: seq<T>)
    requires all != [] && IsPart(all, wanted, part)
    ensures wanted(all[|all| - 1]) ==>
              && part != [] && part[|part| - 1] == all[|all| - 1]
              && IsPart(all[..|all| - 1], wanted, part[..|part| - 1])
    ensures !wanted(all[|all| - 1]) ==> IsPart(all[..|all| - 1], wanted, part)
  {
    var at :| Places(all, wanted, part, at);
    if wanted(all[|all| - 1]) {
      PlacesFront(all, wanted, part, at);
    } else {
      assert at == [] || at[0] < |all| - 1;
      assert Places(all[..|all| - 1], wanted, part, at);
    }
  }

  lemma PartOfNothing<T>(wanted: T -> bool, part: seq<T>)
    requires IsPart([], wanted, part)
    ensures part == []
  {
    var at :| Places([], wanted, part, at);
  }

  /** There is one such list. */
  lemma {:induction false} PartIsUnique<T>(all: seq<T>, wanted: T -> bool, p: seq<T>, q: seq<T>)
    requires IsPart(all, wanted, p) && IsPart(all, wanted, q)
    ensures p == q
  {
    if all == [] {
      PartOfNothing(wanted, p);
      PartOfNothing(wanted, q);
    } else {
      var n := |all| - 1;
      PartFront(all, wanted, p);
      PartFront(all, wanted, q);
      if wanted(all[n]) {
        PartIsUnique(all[..n], wanted, p[..|p| - 1], q[..|q| - 1]);
        assert p == p[..|p| - 1] + [all[n]] && q == q[..|q| - 1] + [all[n]];
      } else {
        PartIsUnique(all[..n], wanted, p, q);
      }
    }
  }

  /** Membership, the weaker half of it. */
  lemma PartHas<T>(all: seq<T>, wanted: T -> bool, part: seq<T>, x: T)
    requires IsPart(all, wanted, part)
    ensures x in part <==> x in all && wanted(x)
  {
    var at :| Places(all, wanted, part, at);
    if x in all && wanted(x) {
      var i :| 0 <= i < |all| && all[i] == x;
      assert i in at;
      var k :| 0 <= k < |at| && at[k] == i;
      assert part[k] == x;
    }
  }
}
