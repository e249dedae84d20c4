/** Number sets: sorting, duplicates and ranges. */
module LottoNumbers {
  import opened Options

  predicate Increasing(s: seq<int>) {
    forall i, j :: 0 <= i < j < |s| ==> s[i] < s[j]
  }

  predicate Distinct(s: seq<int>) {
    forall i, j :: 0 <= i < j < |s| ==> s[i] != s[j]
  }

  function Elements(s: seq<int>): set<int> {
    set x | x in s
  }

  /** Six different numbers of 1..45 in order. */
  predicate IsNumbers(numbers: seq<int>) {
    |numbers| == 6 && Increasing(numbers) && forall i :: 0 <= i < 6 ==> 1 <= numbers[i] <= 45
  }

  lemma NoElements(s: seq<int>)
    ensures Elements(s) == {} <==> s == []
  {
    if s != [] { assert s[0] in Elements(s); }
  }

  /** A set of numbers has one increasing list. */
  lemma {:induction false} IncreasingIsUnique(s: seq<int>, t: seq<int>)
    requires Increasing(s) && Increasing(t) && Elements(s) == Elements(t)
    ensures s == t
  {
    if s == [] || t == [] {
      NoElements(s);
      NoElements(t);
    } else {
      var m, n := |s| - 1, |t| - 1;
      assert s[m] in Elements(t) && t[n] in Elements(s);
      assert s[m] == t[n];
      assert Elements(s[..m]) == Elements(s) - {s[m]};
      assert Elements(t[..n]) == Elements(t) - {t[n]};
      IncreasingIsUnique(s[..m], t[..n]);
      assert s == s[..m] + [s[m]] && t == t[..n] + [t[n]];
    }
  }

  // ---------- sort.Ints ----------

  function Place(x: int, s: seq<int>): seq<int> {
    if s == [] || x <= s[0] then [x] + s else [s[0]] + Place(x, s[1..])
  }

  /** sort.Ints on a copy. */
  function NormalizeNumbers(s: seq<int>): seq<int> {
    if s == [] then [] else Place(s[0], NormalizeNumbers(s[1..]))
  }

  lemma {:induction false} PlaceElements(x: int, s: seq<int>)
    ensures Elements(Place(x, s)) == Elements(s) + {x} && |Place(x, s)| == |s| + 1
  {
    if s != [] && x > s[0] {
      PlaceElements(x, s[1..]);
      assert Elements(s) == {s[0]} + Elements(s[1..]);
      assert Elements(Place(x, s)) == {s[0]} + Elements(Place(x, s[1..]));
    }
  }

  lemma {:induction false} PlaceIncreasing(x: int, s: seq<int>)
    requires Increasing(s) && x !in s
    ensures Increasing(Place(x, s))
  {
    if s != [] && x > s[0] {
      PlaceIncreasing(x, s[1..]);
      PlaceElements(x, s[1..]);
      var rest := Place(x, s[1..]);
      forall j | 0 <= j < |rest| ensures s[0] < rest[j] {
        assert rest[j] in Elements(rest);
      }
    }
  }

  lemma {:induction false} NormalizeElements(s: seq<int>)
    ensures Elements(NormalizeNumbers(s)) == Elements(s) && |NormalizeNumbers(s)| == |s|
  {
    if s != [] {
      NormalizeElements(s[1..]);
      PlaceElements(s[0], NormalizeNumbers(s[1..]));
      assert Elements(s) == {s[0]} + Elements(s[1..]);
    }
  }

  lemma {:induction false} NormalizeIncreasing(s: seq<int>)
    requires Distinct(s)
    ensures Increasing(NormalizeNumbers(s))
  {
    if s != [] {
      var rest := NormalizeNumbers(s[1..]);
      NormalizeIncreasing(s[1..]);
      NormalizeElements(s[1..]);
      assert s[0] !in s[1..];
      assert s[0] !in Elements(s[1..]);
      PlaceIncreasing(s[0], rest);
    }
  }

  // ---------- uniqueSortedInts ----------

  /** t is s with the values at i and j exchanged. */
  predicate Swapped(s: seq<int>, t: seq<int>, i: nat, j: nat) {
    && i < |s| == |t| && j < |s| && t[i] == s[j] && t[j] == s[i]
    && (forall k :: 0 <= k < |s| && k != i && k != j ==> t[k] == s[k])
  }

  function Exchange(k: nat, i: nat, j: nat): nat {
    if k == i then j else if k == j then i else k
  }

  lemma SwappedAt(s: seq<int>, t: seq<int>, i: nat, j: nat, k: nat)
    requires Swapped(s, t, i, j) && k < |s|
    ensures t[k] == s[Exchange(k, i, j)]
  {}

  lemma SwapKeepsElements(s: seq<int>, t: seq<int>, i: nat, j: nat)
    requires Swapped(s, t, i, j)
    ensures Elements(t) <= Elements(s)
  {
    forall x | x in t ensures x in s {
      var k: nat :| k < |t| && t[k] == x;
      SwappedAt(s, t, i, j, k);
    }
  }

  lemma SwapKeepsDistinct(s: seq<int>, t: seq<int>, i: nat, j: nat)
    requires Swapped(s, t, i, j) && Distinct(s)
    ensures Distinct(t)
  {
    forall p, q | 0 <= p < q < |t| ensures t[p] != t[q] {
      SwappedAt(s, t, i, j, p);
      SwappedAt(s, t, i, j, q);
      assert Exchange(p, i, j) != Exchange(q, i, j);
    }
  }

  lemma SwapElements(s: seq<int>, t: seq<int>, i: nat, j: nat)
    requires Swapped(s, t, i, j)
    ensures Elements(t) == Elements(s)
    ensures Distinct(s) ==> Distinct(t)
  {
    assert Swapped(t, s, i, j);
    SwapKeepsElements(s, t, i, j);
    SwapKeepsElements(t, s, i, j);
    if Distinct(s) { SwapKeepsDistinct(s, t, i, j); }
  }

  /** Everything before i is in place. */
  ghost predicate SortedTo(s: seq<int>, i: int) {
    forall p, q :: 0 <= p < q < |s| && p < i ==> s[p] <= s[q]
  }

  method ExchangeSort(out: array<int>)
    requires Distinct(out[..])
    modifies out
    ensures Increasing(out[..]) && Elements(out[..]) == Elements(old(out[..]))
  {
    var i := 0;
    while i < out.Length - 1
      invariant 0 <= i && (out.Length > 0 ==> i < out.Length)
      invariant Distinct(out[..]) && Elements(out[..]) == Elements(old(out[..]))
      invariant SortedTo(out[..], i)
    {
      BringSmallest(out, i);
      i := i + 1;
    }
  }

  /** The inner loop: the smallest of the values from i on comes to i. */
  method BringSmallest(out: array<int>, i: nat)
    requires i < out.Length && Distinct(out[..]) && SortedTo(out[..], i)
    modifies out
    ensures Distinct(out[..]) && Elements(out[..]) == Elements(old(out[..])) && SortedTo(out[..], i + 1)
  {
    var j := i + 1;
    while j < out.Length
      invariant i < j <= out.Length
      invariant Distinct(out[..]) && Elements(out[..]) == Elements(old(out[..]))
      invariant SortedTo(out[..], i)
      invariant forall q :: i < q < j ==> out[i] <= out[q]
    {
      if out[j] < out[i] {
        ghost var was := out[..];
        out[i], out[j] := out[j], out[i];
        SwapElements(was, out[..], i, j);
        SwapKeepsOrder(was, out[..], i, j);
      }
      j := j + 1;
    }
  }

  lemma SwapKeepsOrder(s: seq<int>, t: seq<int>, i: nat, j: nat)
    requires i < j && Swapped(s, t, i, j) && SortedTo(s, i)
    ensures SortedTo(t, i)
  {}

  /** The distinct values in increasing order: there is only one such list. */
  method UniqueSortedInts(values: seq<int>) returns (r: seq<int>)
    ensures Increasing(r) && Elements(r) == Elements(values)
  {
    var seen: set<int> := {};
    var unique: seq<int> := [];
    for k := 0 to |values|
      invariant seen == Elements(unique) == Elements(values[..k])
      invariant Distinct(unique)
    {
      assert Elements(values[..k + 1]) == Elements(values[..k]) + {values[k]};
      if values[k] !in seen {
        assert Elements(unique + [values[k]]) == Elements(unique) + {values[k]};
        assert values[k] !in unique;
        seen := seen + {values[k]};
        unique := unique + [values[k]];
      }
    }
    assert values[..|values|] == values;
    var out := new int[|unique|](k requires 0 <= k < |unique| => unique[k]);
    assert out[..] == unique;
    ExchangeSort(out);
    r := out[..];
  }

  // ---------- number sets ----------

  predicate ValidSet(values: seq<int>) {
    |values| == 6 && Distinct(values) && forall i :: 0 <= i < 6 ==> 1 <= values[i] <= 45
  }

  function Six(values: seq<int>, g: nat): (r: seq<int>)
    requires 6 * g + 6 <= |values|
  {
    values[6 * g..6 * g + 6]
  }

  /** Manual numbers come in sixes. */
  predicate ValidValues(values: seq<int>) {
    && |values| > 0
    && |values| % 6 == 0
    && (forall g :: 0 <= g < |values| / 6 ==> ValidSet(Six(values, g)))
  }

  function NumberSets(values: seq<int>): (r: seq<seq<int>>)
    requires |values| % 6 == 0
    ensures |r| == |values| / 6
  {
    seq(|values| / 6, g requires 0 <= g < |values| / 6 => NormalizeNumbers(Six(values, g)))
  }

  /** A sorted valid set is the one strictly increasing list of the same six numbers. */
  lemma NormalizedSetIsNumbers(values: seq<int>)
    requires ValidSet(values)
    ensures IsNumbers(NormalizeNumbers(values))
  {
    NormalizeElements(values);
    NormalizeIncreasing(values);
    forall i | 0 <= i < 6 ensures 1 <= NormalizeNumbers(values)[i] <= 45 {
      assert NormalizeNumbers(values)[i] in Elements(values);
    }
  }

  method NormalizeManualNumberSets(values: seq<int>) returns (r: Option<seq<seq<int>>>)
    ensures r == if ValidValues(values) then Some(NumberSets(values)) else None
  {
    if |values| == 0 || |values| % 6 != 0 {
      return None;
    }
    var sets: seq<seq<int>> := [];
    var i := 0;
    while i < |values|
      invariant 0 <= i <= |values| && i % 6 == 0
      invariant forall g :: 0 <= g < i / 6 ==> ValidSet(Six(values, g))
      invariant sets == NumberSets(values)[..i / 6]
    {
      var g := i / 6;
      assert i == 6 * g && i + 6 <= |values|;
      var seen: set<int> := {};
      var setValues: seq<int> := [];
      for k := i to i + 6
        invariant setValues == values[i..k] && seen == Elements(setValues)
        invariant Distinct(setValues) && forall m :: 0 <= m < |setValues| ==> 1 <= setValues[m] <= 45
      {
        var value := values[k];
        if value < 1 || value > 45 || value in seen {
          SetIsBad(values, g, k);
          return None;
        }
        assert Elements(setValues + [value]) == seen + {value};
        seen := seen + {value};
        setValues := setValues + [value];
      }
      assert setValues == Six(values, g);
      sets := sets + [NormalizeNumbers(setValues)];
      i := i + 6;
    }
    assert NumberSets(values)[..i / 6] == NumberSets(values);
    r := Some(sets);
  }

  lemma SetIsBad(values: seq<int>, g: nat, k: nat)
    requires |values| % 6 == 0 && 6 * g <= k < 6 * g + 6 <= |values|
    requires !(1 <= values[k] <= 45) || values[k] in values[6 * g..k]
    ensures !ValidValues(values)
  {
    var group := Six(values, g);
    assert group[k - 6 * g] == values[k];
    if values[k] in values[6 * g..k] {
      var m :| 0 <= m < k - 6 * g && values[6 * g..k][m] == values[k];
      assert group[m] == values[k];
    }
    assert !ValidSet(group);
  }

  /** `random` holds the values of rand.IntN(45) + 1 to come: six different ones are kept, None
      when too few come. */
  method GenerateRandomNumbers(random: seq<int>) returns (r: Option<seq<int>>)
    requires forall k :: 0 <= k < |random| ==> 1 <= random[k] <= 45
    ensures r.Some? <==> |Elements(random)| >= 6
    ensures r.Some? ==> IsNumbers(r.value)
    ensures r.Some? ==> exists n :: 0 <= n <= |random| && Elements(r.value) == Elements(random[..n])
  {
    var seen: set<int> := {};
    var values: seq<int> := [];
    var n := 0;
    while |values| < 6 && n < |random|
      invariant 0 <= n <= |random| && |values| <= 6
      invariant seen == Elements(values) == Elements(random[..n])
      invariant Distinct(values) && |seen| == |values|
      invariant forall m :: 0 <= m < |values| ==> 1 <= values[m] <= 45
    {
      OneMoreDrawn(random, n, values);
      if random[n] !in seen {
        seen := seen + {random[n]};
        values := values + [random[n]];
      }
      n := n + 1;
    }
    PartCount(seen, Elements(random));
    if |values| < 6 {
      assert random[..n] == random;
      return None;
    }
    NormalizeElements(values);
    NormalizedSetIsNumbers(values);
    r := Some(NormalizeNumbers(values));
  }

  lemma OneMoreDrawn(random: seq<int>, n: nat, values: seq<int>)
    requires n < |random| && Elements(values) == Elements(random[..n]) && Distinct(values)
    ensures Elements(random[..n + 1]) == Elements(values) + {random[n]} == Elements(values + [random[n]])
    ensures random[n] !in Elements(values) ==> Distinct(values + [random[n]])
  {
    assert random[..n + 1] == random[..n] + [random[n]];
  }

  lemma PartCount(part: set<int>, whole: set<int>)
    requires part <= whole
    ensures |part| <= |whole|
  {
    assert whole == part + (whole - part);
  }
}
