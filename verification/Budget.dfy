/** Sliding-window budgets: at most `limit` grants in any `window`. The window forgets old
    grants by compacting its slice in place; it is compared with one that never forgets. */
module Budget {

  /** The entries after the cutoff, in order. */
  function Recent(h: seq<int>, cutoff: int): (r: seq<int>)
    ensures |r| <= |h|
  {
    if h == [] then []
    else Recent(h[..|h| - 1], cutoff) + (if h[|h| - 1] > cutoff then [h[|h| - 1]] else [])
  }

  /** hits[:0] and append: the kept entries move to the front of the same array. */
  method CompactAfter(buf: array<int>, len: nat, cutoff: int) returns (kept: nat)
    requires len <= buf.Length
    modifies buf
    ensures kept <= len && buf[..kept] == Recent(old(buf[..len]), cutoff)
  {
    kept := 0;
    ghost var h := buf[..len];
    for i := 0 to len
      invariant kept <= i
      invariant buf[..kept] == Recent(h[..i], cutoff)
      invariant forall k :: i <= k < len ==> buf[k] == h[k]
    {
      var ts := buf[i];
      assert h[..i + 1][..i] == h[..i] && h[i] == ts;
      if ts > cutoff {
        buf[kept] := ts;
        kept := kept + 1;
      }
    }
    assert h[..len] == h;
  }

  /** Allow as a function of what the window holds. */
  function PrunedAllow(limit: int, window: int, h: seq<int>, now: int): (bool, seq<int>) {
    if limit <= 0 then (false, h)
    else
      var kept := Recent(h, now - window);
      if |kept| >= limit then (false, kept) else (true, kept + [now])
  }

  class BudgetWindow {
    const limit: int
    const window: int
    var buf: array<int>
    var len: nat

    ghost predicate Valid()
      reads this
    {
      len <= buf.Length
    }

    ghost function Contents(): seq<int>
      reads this, buf
      requires Valid()
    {
      buf[..len]
    }

    constructor (limit: int, window: int)
      ensures Valid() && Contents() == [] && fresh(buf)
      ensures this.limit == limit && this.window == window
    {
      this.limit, this.window := limit, window;
      buf, len := new int[0], 0;
    }

    method Append(now: int)
      requires Valid()
      modifies this, buf
      ensures Valid() && (buf == old(buf) || fresh(buf))
      ensures Contents() == old(Contents()) + [now]
    {
      if len == buf.Length {
        var grown := new int[2 * len + 1];
        forall i | 0 <= i < len {
          grown[i] := buf[i];
        }
        assert grown[..len] == buf[..len];
        buf := grown;
      }
      buf[len] := now;
      len := len + 1;
    }

    method Allow(now: int) returns (ok: bool)
      requires Valid()
      modifies this, buf
      ensures Valid() && (buf == old(buf) || fresh(buf))
      ensures (ok, Contents()) == PrunedAllow(limit, window, old(Contents()), now)
    {
      if limit <= 0 {
        return false;
      }
      len := CompactAfter(buf, len, now - window);
      if len >= limit {
        return false;
      }
      Append(now);
      ok := true;
    }
  }

  // ---------------------------------------------------------------------------
  // Whole runs
  // ---------------------------------------------------------------------------

  predicate Nondecreasing(times: seq<int>) {
    forall i, j :: 0 <= i < j < |times| ==> times[i] <= times[j]
  }

  datatype Run = Run(answers: seq<bool>, history: seq<int>)

  /** The window as it is: old grants are forgotten. */
  function PrunedRun(limit: int, window: int, times: seq<int>): (r: Run)
    ensures |r.answers| == |times|
  {
    if times == [] then Run([], [])
    else
      var before := PrunedRun(limit, window, times[..|times| - 1]);
      var (ok, h) := PrunedAllow(limit, window, before.history, times[|times| - 1]);
      Run(before.answers + [ok], h)
  }

  predicate SpecAllow(limit: int, window: int, grants: seq<int>, now: int) {
    limit > 0 && |Recent(grants, now - window)| < limit
  }

  /** The specification: every grant is remembered for ever. */
  function SpecRun(limit: int, window: int, times: seq<int>): (r: Run)
    ensures |r.answers| == |times|
  {
    if times == [] then Run([], [])
    else
      var now := times[|times| - 1];
      var before := SpecRun(limit, window, times[..|times| - 1]);
      var ok := SpecAllow(limit, window, before.history, now);
      Run(before.answers + [ok], if ok then before.history + [now] else before.history)
  }

  lemma {:induction false} RecentTwice(h: seq<int>, c: int, d: int)
    requires c <= d
    ensures Recent(Recent(h, c), d) == Recent(h, d)
  {
    if h != [] {
      var front := h[..|h| - 1];
      RecentTwice(front, c, d);
      RecentAppend(Recent(front, c), h[|h| - 1], d);
      assert Recent(front, c) + [] == Recent(front, c);
      assert Recent(front, d) + [] == Recent(front, d);
    }
  }

  lemma {:induction false} RecentAppend(h: seq<int>, x: int, c: int)
    ensures Recent(h + [x], c) == Recent(h, c) + (if x > c then [x] else [])
  {
    assert (h + [x])[..|h|] == h;
  }

  lemma {:induction false} RecentShrinks(h: seq<int>, c: int, d: int)
    requires c <= d
    ensures |Recent(h, d)| <= |Recent(h, c)|
  {
    RecentTwice(h, c, d);
  }

  lemma {:induction false} GrantsAfter(limit: int, window: int, times: seq<int>, bound: int)
    requires AllAfter(times, bound)
    ensures AllAfter(SpecRun(limit, window, times).history, bound)
  {
    if times != [] {
      var n := |times| - 1;
      GrantsAfter(limit, window, times[..n], bound);
      var h := SpecRun(limit, window, times[..n]).history;
      assert SpecRun(limit, window, times).history == h || SpecRun(limit, window, times).history == h + [times[n]];
    }
  }

  lemma AllowRemembersEnough(limit: int, window: int, p: seq<int>, s: seq<int>, now: int, cutoff: int)
    requires cutoff >= now - window
    requires Recent(p, now - window) == Recent(s, now - window) && Recent(p, cutoff) == Recent(s, cutoff)
    ensures Recent(PrunedAllow(limit, window, p, now).1, cutoff)
         == Recent(if SpecAllow(limit, window, s, now) then s + [now] else s, cutoff)
  {
    var kept := Recent(p, now - window);
    RecentTwice(p, now - window, cutoff);
    RecentAppend(kept, now, cutoff);
    RecentAppend(s, now, cutoff);
  }

  // ---------------------------------------------------------------------------
  // Clocks that forgetting survives
  // ---------------------------------------------------------------------------

  predicate Nonincreasing(times: seq<int>) {
    forall i, j :: 0 <= i < j < |times| ==> times[i] >= times[j]
  }

  /** Call i is later than call k before it and than call j after it. */
  predicate Peak(times: seq<int>, k: int, i: int, j: int) {
    0 <= k < i < j < |times| && times[k] < times[i] && times[j] < times[i]
  }

  /** The clock may go back, but never again once it has gone forward. */
  ghost predicate NoPeak(times: seq<int>) {
    forall k, i, j :: !Peak(times, k, i, j)
  }

  ghost predicate Tame(window: int, times: seq<int>) {
    NoPeak(times) && (window > 0 || Nondecreasing(times))
  }

  lemma RisingHasNoPeak(times: seq<int>)
    requires Nondecreasing(times)
    ensures NoPeak(times)
  {}

  lemma EarlierIsTame(window: int, times: seq<int>)
    requires times != [] && Tame(window, times)
    ensures Tame(window, times[..|times| - 1])
  {
    var earlier := times[..|times| - 1];
    forall k, i, j ensures !Peak(earlier, k, i, j) {
      assert !Peak(times, k, i, j);
    }
  }

  /** Without a peak the clock only rises from its first rise on. */
  lemma LastRises(times: seq<int>)
    requires |times| >= 2 && NoPeak(times) && !Nonincreasing(times[..|times| - 1])
    ensures times[|times| - 2] <= times[|times| - 1]
  {
    var n := |times|;
    var k, i :| 0 <= k < i < n - 1 && times[..n - 1][k] < times[..n - 1][i];
    assert !Peak(times, k, i, n - 2) && !Peak(times, k, i, n - 1) && !Peak(times, k, n - 2, n - 1);
  }

  predicate AllAfter(h: seq<int>, cutoff: int) {
    forall i :: 0 <= i < |h| ==> h[i] > cutoff
  }

  lemma {:induction false} RecentAll(h: seq<int>, cutoff: int)
    requires AllAfter(h, cutoff)
    ensures Recent(h, cutoff) == h
  {
    if h != [] {
      RecentAll(h[..|h| - 1], cutoff);
    }
  }

  lemma SameNextRun(limit: int, window: int, times: seq<int>)
    requires times != []
    requires PrunedRun(limit, window, times[..|times| - 1]) == SpecRun(limit, window, times[..|times| - 1])
    requires Recent(SpecRun(limit, window, times[..|times| - 1]).history, times[|times| - 1] - window)
          == SpecRun(limit, window, times[..|times| - 1]).history
    ensures PrunedRun(limit, window, times) == SpecRun(limit, window, times)
  {}

  /** While the clock falls nothing grows old. */
  lemma {:induction false} NothingForgotten(limit: int, window: int, times: seq<int>)
    requires window > 0 && Nonincreasing(times)
    ensures PrunedRun(limit, window, times) == SpecRun(limit, window, times)
  {
    if times != [] {
      var now := times[|times| - 1];
      var earlier := times[..|times| - 1];
      assert AllAfter(earlier, now - window) && Nonincreasing(earlier);
      NothingForgotten(limit, window, earlier);
      GrantsAfter(limit, window, earlier, now - window);
      RecentAll(SpecRun(limit, window, earlier).history, now - window);
      SameNextRun(limit, window, times);
    }
  }

  /** A cutoff that can still matter after these calls. */
  ghost predicate Matters(window: int, times: seq<int>, cutoff: int) {
    times == [] || (window > 0 && Nonincreasing(times)) || cutoff >= times[|times| - 1] - window
  }

  lemma MatteredBefore(window: int, times: seq<int>, cutoff: int)
    requires times != [] && Tame(window, times) && cutoff >= times[|times| - 1] - window
    ensures Matters(window, times[..|times| - 1], cutoff)
  {
    var earlier := times[..|times| - 1];
    if earlier != [] && !(window > 0 && Nonincreasing(earlier)) && window > 0 {
      LastRises(times);
    }
  }

  /** Both remember the same from any cutoff that can still matter. */
  lemma {:induction false} PrunedRemembersEnough(limit: int, window: int, times: seq<int>, cutoff: int)
    requires Tame(window, times) && Matters(window, times, cutoff)
    ensures Recent(PrunedRun(limit, window, times).history, cutoff)
         == Recent(SpecRun(limit, window, times).history, cutoff)
  {
    if times == [] {
    } else if window > 0 && Nonincreasing(times) {
      NothingForgotten(limit, window, times);
    } else {
      var now := times[|times| - 1];
      var earlier := times[..|times| - 1];
      EarlierIsTame(window, times);
      MatteredBefore(window, times, cutoff);
      MatteredBefore(window, times, now - window);
      PrunedRemembersEnough(limit, window, earlier, cutoff);
      PrunedRemembersEnough(limit, window, earlier, now - window);
      AllowRemembersEnough(limit, window, PrunedRun(limit, window, earlier).history,
                           SpecRun(limit, window, earlier).history, now, cutoff);
    }
  }

  lemma SameNextAnswer(limit: int, window: int, times: seq<int>)
    requires times != []
    requires PrunedRun(limit, window, times[..|times| - 1]).answers == SpecRun(limit, window, times[..|times| - 1]).answers
    requires Recent(PrunedRun(limit, window, times[..|times| - 1]).history, times[|times| - 1] - window)
          == Recent(SpecRun(limit, window, times[..|times| - 1]).history, times[|times| - 1] - window)
    ensures PrunedRun(limit, window, times).answers == SpecRun(limit, window, times).answers
  {}

  /** While the clock has no peak, forgetting changes no answer. */
  lemma {:induction false} PruningRefinesRemembering(limit: int, window: int, times: seq<int>)
    requires Tame(window, times)
    ensures PrunedRun(limit, window, times).answers == SpecRun(limit, window, times).answers
  {
    if times != [] {
      var now := times[|times| - 1];
      var earlier := times[..|times| - 1];
      assert Tame(window, earlier) by { EarlierIsTame(window, times); }
      assert Matters(window, earlier, now - window) by { MatteredBefore(window, times, now - window); }
      PruningRefinesRemembering(limit, window, earlier);
      PrunedRemembersEnough(limit, window, earlier, now - window);
      SameNextAnswer(limit, window, times);
    }
  }

  // A peak, and the limit and window for which it matters.

  lemma {:induction false} RecentKeepsAll(h: seq<int>, cutoff: int)
    ensures |Recent(h, cutoff)| == |h| ==> Recent(h, cutoff) == h && forall i :: 0 <= i < |h| ==> h[i] > cutoff
  {
    if h != [] {
      RecentKeepsAll(h[..|h| - 1], cutoff);
    }
  }

  /** With room for all of them the specification grants every call. */
  lemma {:induction false} SpecGrantsAll(limit: int, window: int, times: seq<int>)
    requires limit >= |times|
    ensures SpecRun(limit, window, times).history == times
  {
    if times != [] {
      var earlier := times[..|times| - 1];
      SpecGrantsAll(limit, window, earlier);
      assert earlier + [times[|times| - 1]] == times;
    }
  }

  /** One call with room: it is granted, and what is too old goes. */
  lemma PrunedStep(limit: int, window: int, times: seq<int>)
    requires times != []
    requires |PrunedRun(limit, window, times[..|times| - 1]).history| < limit
    ensures var h := PrunedRun(limit, window, times[..|times| - 1]).history;
            && PrunedRun(limit, window, times).history
               == Recent(h, times[|times| - 1] - window) + [times[|times| - 1]]
            && PrunedRun(limit, window, times).answers[|times| - 1]
  {}

  /** h holds no more than all the calls, and all of them only if it is all of them. */
  predicate Holds(h: seq<int>, times: seq<int>) {
    |h| <= |times| && (|h| == |times| ==> h == times)
  }

  lemma HoldsOneMore(h: seq<int>, times: seq<int>, now: int, cutoff: int)
    requires Holds(h, times)
    ensures Holds(Recent(h, cutoff) + [now], times + [now])
  {
    RecentKeepsAll(h, cutoff);
  }

  lemma HoldsNext(h: seq<int>, earlier: seq<int>, now: int, cutoff: int, after: seq<int>, times: seq<int>)
    requires Holds(h, earlier) && after == Recent(h, cutoff) + [now] && times == earlier + [now]
    ensures Holds(after, times)
  {
    HoldsOneMore(h, earlier, now, cutoff);
  }

  /** The window then grants every call too, and it holds all of them only if it dropped none. */
  lemma {:induction false} WindowHoldsAll(limit: int, window: int, times: seq<int>)
    requires limit >= |times|
    ensures Holds(PrunedRun(limit, window, times).history, times)
  {
    if times != [] {
      var earlier, now := times[..|times| - 1], times[|times| - 1];
      var h, after := PrunedRun(limit, window, earlier).history, PrunedRun(limit, window, times).history;
      assert Holds(h, earlier) by { WindowHoldsAll(limit, window, earlier); }
      assert after == Recent(h, now - window) + [now] by { PrunedStep(limit, window, times); }
      HoldsNext(h, earlier, now, now - window, after, times);
    }
  }

  /** A call at the end of the window's length after an earlier one makes the window drop it. */
  lemma {:induction false} DropsOne(limit: int, window: int, times: seq<int>, k: nat, i: nat)
    requires limit >= |times| && k < i < |times| && times[k] <= times[i] - window
    ensures |PrunedRun(limit, window, times).history| < |times|
  {
    var earlier, now := times[..|times| - 1], times[|times| - 1];
    var h := PrunedRun(limit, window, earlier).history;
    WindowHoldsAll(limit, window, earlier);
    PrunedStep(limit, window, times);
    if i < |times| - 1 {
      DropsOne(limit, window, earlier, k, i);
      RecentKeepsAll(h, now - window);
    } else {
      OldGoes(h, earlier, now - window, k);
    }
  }

  lemma OldGoes(h: seq<int>, times: seq<int>, cutoff: int, k: nat)
    requires Holds(h, times) && k < |times| && times[k] <= cutoff
    ensures |Recent(h, cutoff)| < |times|
  {
    RecentKeepsAll(h, cutoff);
  }

  /** The first peak to end: no call in between is earlier than its top. */
  ghost predicate FirstPeak(times: seq<int>, k: int, i: int, j: int) {
    Peak(times, k, i, j) && NoPeak(times[..j])
  }

  lemma {:induction false} FindFirstPeak(times: seq<int>, k: int, i: int, j: int) returns (k': nat, i': nat, j': nat)
    requires Peak(times, k, i, j)
    ensures FirstPeak(times, k', i', j')
    decreases j
  {
    if NoPeak(times[..j]) {
      k', i', j' := k, i, j;
    } else {
      var a, b, c :| Peak(times[..j], a, b, c);
      k', i', j' := FindFirstPeak(times, a, b, c);
    }
  }

  /** The earliest call before i. */
  lemma {:induction false} Earliest(times: seq<int>, i: nat) returns (m: nat)
    requires 0 < i <= |times|
    ensures m < i && forall p :: 0 <= p < i ==> times[m] <= times[p]
  {
    if i == 1 {
      m := 0;
    } else {
      m := Earliest(times, i - 1);
      if times[i - 1] < times[m] { m := i - 1; }
    }
  }

  /** At the end of a first peak no earlier call is as old as the top is after its foot. */
  lemma FirstPeakIsRecent(times: seq<int>, k: nat, i: nat, j: nat, m: nat)
    requires FirstPeak(times, k, i, j) && m < i && forall p :: 0 <= p < i ==> times[m] <= times[p]
    ensures times[m] < times[i]
    ensures AllAfter(times[..j], times[j] - (times[i] - times[m]))
  {
    assert times[m] <= times[k];
    forall p | 0 <= p < j ensures times[..j][p] > times[j] - (times[i] - times[m]) {
      assert !Peak(times[..j], k, i, p);
    }
  }

  /** When every earlier call is recent and the limit is their number, the next is denied. */
  lemma SpecDenies(limit: nat, window: int, earlier: seq<int>, now: int)
    requires limit == |earlier| && AllAfter(earlier, now - window)
    ensures !SpecRun(limit, window, earlier + [now]).answers[limit]
  {
    assert SpecRun(limit, window, earlier).history == earlier by { SpecGrantsAll(limit, window, earlier); }
    assert |Recent(earlier, now - window)| == limit by { RecentAll(earlier, now - window); }
    SpecNext(limit, window, earlier, now);
  }

  lemma SpecNext(limit: int, window: int, earlier: seq<int>, now: int)
    ensures SpecRun(limit, window, earlier + [now]).answers[|earlier|]
         == SpecAllow(limit, window, SpecRun(limit, window, earlier).history, now)
  {
    assert (earlier + [now])[..|earlier|] == earlier;
  }

  lemma WindowGrants(limit: nat, window: int, earlier: seq<int>, now: int, k: nat, i: nat)
    requires limit == |earlier| && k < i < |earlier| && earlier[k] <= earlier[i] - window
    ensures PrunedRun(limit, window, earlier + [now]).answers[limit]
  {
    DropsOne(limit, window, earlier, k, i);
    assert (earlier + [now])[..limit] == earlier;
    PrunedStep(limit, window, earlier + [now]);
  }

  /** There the window has dropped a grant the specification still counts. */
  lemma PeakTells(times: seq<int>, k: nat, i: nat, j: nat) returns (limit: nat, window: nat)
    requires FirstPeak(times, k, i, j)
    ensures window > 0
    ensures PrunedRun(limit, window, times[..j + 1]).answers[j] && !SpecRun(limit, window, times[..j + 1]).answers[j]
  {
    var m := Earliest(times, i);
    FirstPeakIsRecent(times, k, i, j, m);
    limit, window := j, times[i] - times[m];
    WindowGrants(limit, window, times[..j], times[j], m, i);
    SpecDenies(limit, window, times[..j], times[j]);
    assert times[..j + 1] == times[..j] + [times[j]];
  }

  lemma {:induction false} AnswersStay(limit: int, window: int, times: seq<int>, j: nat)
    requires j < |times|
    ensures PrunedRun(limit, window, times[..j + 1]).answers[j] == PrunedRun(limit, window, times).answers[j]
    ensures SpecRun(limit, window, times[..j + 1]).answers[j] == SpecRun(limit, window, times).answers[j]
  {
    if j == |times| - 1 {
      assert times[..j + 1] == times;
    } else {
      AnswersStay(limit, window, times[..|times| - 1], j);
      assert times[..|times| - 1][..j + 1] == times[..j + 1];
    }
  }

  /** For one: two calls, the second past the window of the first, and a third before the second. */
  lemma ClockMustNotGoBack(earlier: seq<int>)
    requires earlier == [100, 120]
    ensures PrunedRun(2, 10, earlier + [105]).answers[2] && !SpecRun(2, 10, earlier + [105]).answers[2]
  {
    WindowGrants(2, 10, earlier, 105, 0, 1);
    SpecDenies(2, 10, earlier, 105);
  }

  ghost predicate SameAnswers(limit: int, window: int, times: seq<int>) {
    PrunedRun(limit, window, times).answers == SpecRun(limit, window, times).answers
  }

  /** Main result: forgetting old grants changes no answer, for any limit and positive window,
      exactly when no call is later than both an earlier and a later one. */
  lemma ForgettingIsSafeIffNoPeak(times: seq<int>)
    ensures NoPeak(times) <==> forall limit, window: int :: window > 0 ==> SameAnswers(limit, window, times)
  {
    if NoPeak(times) {
      forall limit, window: int | window > 0 ensures SameAnswers(limit, window, times) {
        PruningRefinesRemembering(limit, window, times);
      }
    } else {
      var k, i, j :| Peak(times, k, i, j);
      var k', i', j' := FindFirstPeak(times, k, i, j);
      var limit, window := PeakTells(times, k', i', j');
      AnswersStay(limit, window, times, j');
      assert !SameAnswers(limit, window, times);
    }
  }

  // ---------------------------------------------------------------------------
  // The bound
  // ---------------------------------------------------------------------------

  /** The grants in the half-open interval after lo, up to and with hi. */
  function Within(h: seq<int>, lo: int, hi: int): seq<int> {
    if h == [] then []
    else Within(h[..|h| - 1], lo, hi) + (if lo < h[|h| - 1] <= hi then [h[|h| - 1]] else [])
  }

  lemma {:induction false} WithinAtMostRecent(h: seq<int>, lo: int, hi: int)
    ensures |Within(h, lo, hi)| <= |Recent(h, lo)|
  {
    if h != [] {
      WithinAtMostRecent(h[..|h| - 1], lo, hi);
    }
  }

  /** With every grant remembered no window of the configured length, wherever it lies, holds
      more grants than the limit, whatever the clock does. */
  lemma {:induction false} SpecNeverExceedsLimit(limit: int, window: int, times: seq<int>, lo: int)
    ensures |Within(SpecRun(limit, window, times).history, lo, lo + window)| <= if limit > 0 then limit else 0
  {
    if times != [] {
      var now := times[|times| - 1];
      var earlier := times[..|times| - 1];
      var h := SpecRun(limit, window, earlier).history;
      SpecNeverExceedsLimit(limit, window, earlier, lo);
      if SpecAllow(limit, window, h, now) {
        assert (h + [now])[..|h|] == h;
        if lo < now <= lo + window {
          WithinAtMostRecent(h, lo, lo + window);
          RecentShrinks(h, now - window, lo);
        }
      }
    }
  }

  /** The times of the calls that were granted. */
  function Granted(times: seq<int>, answers: seq<bool>): seq<int>
    requires |answers| == |times|
  {
    if times == [] then []
    else
      var n := |times| - 1;
      Granted(times[..n], answers[..n]) + if answers[n] then [times[n]] else []
  }

  lemma {:induction false} SpecRemembersGrants(limit: int, window: int, times: seq<int>)
    ensures SpecRun(limit, window, times).history == Granted(times, SpecRun(limit, window, times).answers)
  {
    if times != [] {
      var n := |times| - 1;
      SpecRemembersGrants(limit, window, times[..n]);
      assert SpecRun(limit, window, times).answers[..n] == SpecRun(limit, window, times[..n]).answers;
    }
  }

  /** Main result: on a clock without a peak no window of the configured length, wherever it
      lies, holds more of the window's own grants than the limit. */
  lemma NoWindowExceedsLimit(limit: int, window: int, times: seq<int>, lo: int)
    requires Tame(window, times)
    ensures |Within(Granted(times, PrunedRun(limit, window, times).answers), lo, lo + window)|
            <= if limit > 0 then limit else 0
  {
    PruningRefinesRemembering(limit, window, times);
    SpecRemembersGrants(limit, window, times);
    SpecNeverExceedsLimit(limit, window, times, lo);
  }

  /** The calls before i that were granted and are not older than the window at i's time. */
  function StillCounted(window: int, times: seq<int>, answers: seq<bool>, i: nat): set<nat>
    requires i < |times| == |answers|
  {
    set j: nat | j < i && answers[j] && times[j] > times[i] - window
  }

  function CountedAmong(times: seq<int>, answers: seq<bool>, cutoff: int): set<nat>
    requires |times| == |answers|
  {
    set j: nat | j < |times| && answers[j] && times[j] > cutoff
  }

  lemma {:induction false} RecentCount(times: seq<int>, answers: seq<bool>, cutoff: int)
    requires |times| == |answers|
    ensures |Recent(Granted(times, answers), cutoff)| == |CountedAmong(times, answers, cutoff)|
  {
    if times == [] {
      assert CountedAmong(times, answers, cutoff) == {};
    } else {
      var n := |times| - 1;
      RecentCount(times[..n], answers[..n], cutoff);
      assert CountedAmong(times, answers, cutoff)
          == CountedAmong(times[..n], answers[..n], cutoff) + if answers[n] && times[n] > cutoff then {n} else {};
      if answers[n] {
        RecentAppend(Granted(times[..n], answers[..n]), times[n], cutoff);
      } else {
        assert Granted(times, answers) == Granted(times[..n], answers[..n]);
      }
    }
  }

  lemma {:induction false} AnswersOfFront(limit: int, window: int, times: seq<int>, i: nat)
    requires i <= |times|
    ensures SpecRun(limit, window, times[..i]).answers == SpecRun(limit, window, times).answers[..i]
  {
    if i == |times| {
      assert times[..i] == times;
    } else {
      AnswersOfFront(limit, window, times[..|times| - 1], i);
      assert times[..|times| - 1][..i] == times[..i];
    }
  }

  lemma HistoryCount(limit: int, window: int, earlier: seq<int>, cutoff: int)
    ensures |Recent(SpecRun(limit, window, earlier).history, cutoff)|
         == |CountedAmong(earlier, SpecRun(limit, window, earlier).answers, cutoff)|
  {
    SpecRemembersGrants(limit, window, earlier);
    RecentCount(earlier, SpecRun(limit, window, earlier).answers, cutoff);
  }

  lemma CountedBefore(window: int, times: seq<int>, answers: seq<bool>, i: nat)
    requires i < |times| == |answers|
    ensures StillCounted(window, times, answers, i) == CountedAmong(times[..i], answers[..i], times[i] - window)
  {}

  lemma SpecAnswer(limit: int, window: int, times: seq<int>, i: nat)
    requires i < |times|
    ensures SpecRun(limit, window, times).answers[i]
         == SpecAllow(limit, window, SpecRun(limit, window, times[..i]).history, times[i])
  {
    AnswersStay(limit, window, times, i);
    assert times[..i + 1] == times[..i] + [times[i]];
    SpecNext(limit, window, times[..i], times[i]);
  }

  lemma SpecAnswerIff(limit: int, window: int, times: seq<int>, i: nat)
    requires i < |times|
    ensures SpecRun(limit, window, times).answers[i]
       <==> |StillCounted(window, times, SpecRun(limit, window, times).answers, i)| < limit
  {
    SpecAnswer(limit, window, times, i);
    HistoryCount(limit, window, times[..i], times[i] - window);
    AnswersOfFront(limit, window, times, i);
    CountedBefore(window, times, SpecRun(limit, window, times).answers, i);
  }

  /** Main result: on a clock without a peak a call is granted exactly when fewer than `limit` calls
      before it were granted within the window; nothing is denied that could be granted. */
  lemma GrantedIffRoomLeft(limit: int, window: int, times: seq<int>, i: nat)
    requires Tame(window, times) && i < |times|
    ensures PrunedRun(limit, window, times).answers[i]
       <==> |StillCounted(window, times, PrunedRun(limit, window, times).answers, i)| < limit
  {
    PruningRefinesRemembering(limit, window, times);
    SpecAnswerIff(limit, window, times, i);
  }

  /** A caller's run of Allow on one window answers as PrunedRun, and so on a clock without a
      peak as the specification does. */
  method Replay(limit: int, window: int, times: seq<int>) returns (answers: seq<bool>)
    ensures answers == PrunedRun(limit, window, times).answers
    ensures Tame(window, times) ==> answers == SpecRun(limit, window, times).answers
  {
    var b := new BudgetWindow(limit, window);
    answers := [];
    for i := 0 to |times|
      invariant b.Valid() && fresh(b) && fresh(b.buf) && b.limit == limit && b.window == window
      invariant Run(answers, b.Contents()) == PrunedRun(limit, window, times[..i])
    {
      var ok := b.Allow(times[i]);
      answers := answers + [ok];
      assert times[..i + 1][..i] == times[..i];
    }
    assert times[..|times|] == times;
    if Tame(window, times) {
      PruningRefinesRemembering(limit, window, times);
    }
  }
}
