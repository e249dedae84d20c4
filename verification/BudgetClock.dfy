/** The refresh budget in real time. A sweep reads the clock once and stamps all its calls with
    that time, while other callers use the present one; so stamps may lag behind the calls. */
module BudgetClock {
  import opened Options
  import opened Budget

  /** A call of Allow at a real time; began: the start of the sweep that makes it. */
  datatype Call = Call(at: int, began: Option<int>)

  function Stamp(c: Call): int {
    if c.began.Some? then c.began.value else c.at
  }

  function Stamps(calls: seq<Call>): (r: seq<int>)
    ensures |r| == |calls|
  {
    if calls == [] then [] else Stamps(calls[..|calls| - 1]) + [Stamp(calls[|calls| - 1])]
  }

  /** Real time does not go back, and no sweep calls more than `delay` after it began. */
  ghost predicate Timely(calls: seq<Call>, delay: int) {
    && (forall i, j :: 0 <= i < j < |calls| ==> calls[i].at <= calls[j].at)
    && (forall i :: 0 <= i < |calls| ==> calls[i].at - delay <= Stamp(calls[i]) <= calls[i].at)
  }

  function Answers(limit: int, window: int, calls: seq<Call>): (r: seq<bool>)
    ensures |r| == |calls|
  {
    PrunedRun(limit, window, Stamps(calls)).answers
  }

  function History(limit: int, window: int, calls: seq<Call>): seq<int> {
    PrunedRun(limit, window, Stamps(calls)).history
  }

  /** The calls granted in the real interval after lo, up to and with hi. */
  function GrantsIn(calls: seq<Call>, answers: seq<bool>, lo: int, hi: int): nat
    requires |answers| == |calls|
  {
    if calls == [] then 0
    else
      var n := |calls| - 1;
      GrantsIn(calls[..n], answers[..n], lo, hi) + if answers[n] && lo < calls[n].at <= hi then 1 else 0
  }

  function Most(limit: int): nat {
    if limit > 0 then limit else 0
  }

  // ---------- one more call ----------

  lemma StampsOneMore(calls: seq<Call>, c: Call)
    ensures Stamps(calls + [c]) == Stamps(calls) + [Stamp(c)]
  {
    assert (calls + [c])[..|calls|] == calls;
  }

  /** The answer and the history after one more call. */
  lemma OneMore(limit: int, window: int, calls: seq<Call>, c: Call)
    ensures Answers(limit, window, calls + [c])
         == Answers(limit, window, calls) + [PrunedAllow(limit, window, History(limit, window, calls), Stamp(c)).0]
    ensures History(limit, window, calls + [c]) == PrunedAllow(limit, window, History(limit, window, calls), Stamp(c)).1
  {
    StampsOneMore(calls, c);
    assert (Stamps(calls) + [Stamp(c)])[..|calls|] == Stamps(calls);
  }

  lemma GrantsOneMore(calls: seq<Call>, answers: seq<bool>, c: Call, ok: bool, lo: int, hi: int)
    requires |answers| == |calls|
    ensures GrantsIn(calls + [c], answers + [ok], lo, hi)
         == GrantsIn(calls, answers, lo, hi) + if ok && lo < c.at <= hi then 1 else 0
  {
    assert (calls + [c])[..|calls|] == calls && (answers + [ok])[..|calls|] == answers;
  }

  lemma EarlierIsTimely(calls: seq<Call>, c: Call, delay: int)
    requires Timely(calls + [c], delay)
    ensures Timely(calls, delay) && c.at - delay <= Stamp(c) <= c.at
    ensures forall i :: 0 <= i < |calls| ==> calls[i].at <= c.at
  {
    var all := calls + [c];
    assert all[|calls|] == c;
    assert forall i :: 0 <= i < |calls| ==> all[i] == calls[i];
  }

  // ---------- the bound in real time ----------

  /** All grants after lo are still held, under stamps that are late by at most the delay. */
  predicate Held(calls: seq<Call>, answers: seq<bool>, h: seq<int>, delay: int, lo: int, hi: int)
    requires |answers| == |calls|
  {
    GrantsIn(calls, answers, lo, hi) <= |Recent(h, lo - delay)|
  }

  lemma AllowHolds(limit: int, window: int, h: seq<int>, now: int, cutoff: int)
    requires now - window <= cutoff
    ensures |Recent(PrunedAllow(limit, window, h, now).1, cutoff)|
         == |Recent(h, cutoff)| + if PrunedAllow(limit, window, h, now).0 && now > cutoff then 1 else 0
  {
    RecentTwice(h, now - window, cutoff);
    RecentAppend(Recent(h, now - window), now, cutoff);
  }

  lemma HeldOneMore(limit: int, window: int, delay: int, calls: seq<Call>, answers: seq<bool>, h: seq<int>, c: Call,
                    lo: int, hi: int)
    requires |answers| == |calls| && Held(calls, answers, h, delay, lo, hi)
    requires c.at - delay <= Stamp(c) <= c.at <= lo - delay + window
    ensures Held(calls + [c], answers + [PrunedAllow(limit, window, h, Stamp(c)).0],
                 PrunedAllow(limit, window, h, Stamp(c)).1, delay, lo, hi)
  {
    AllowHolds(limit, window, h, Stamp(c), lo - delay);
    GrantsOneMore(calls, answers, c, PrunedAllow(limit, window, h, Stamp(c)).0, lo, hi);
  }

  /** As long as the calls come no later than a window's length, less the delay, after lo. */
  lemma {:induction false} GrantsAreHeld(limit: int, window: int, delay: int, calls: seq<Call>, lo: int, hi: int)
    requires Timely(calls, delay)
    requires forall i :: 0 <= i < |calls| ==> calls[i].at <= lo - delay + window
    ensures Held(calls, Answers(limit, window, calls), History(limit, window, calls), delay, lo, hi)
  {
    if calls != [] {
      var earlier, c := calls[..|calls| - 1], calls[|calls| - 1];
      assert calls == earlier + [c];
      EarlierIsTimely(earlier, c, delay);
      GrantsAreHeld(limit, window, delay, earlier, lo, hi);
      HeldOneMore(limit, window, delay, earlier, Answers(limit, window, earlier), History(limit, window, earlier), c, lo, hi);
      OneMore(limit, window, earlier, c);
    }
  }

  /** A call granted inside the interval found room for one more. */
  lemma GrantFindsRoom(limit: int, window: int, delay: int, calls: seq<Call>, c: Call, lo: int, hi: int)
    requires Timely(calls + [c], delay) && c.at <= hi <= lo + window - delay
    requires PrunedAllow(limit, window, History(limit, window, calls), Stamp(c)).0
    ensures GrantsIn(calls, Answers(limit, window, calls), lo, hi) < limit
  {
    EarlierIsTimely(calls, c, delay);
    GrantsAreHeld(limit, window, delay, calls, lo, hi);
    RecentShrinks(History(limit, window, calls), Stamp(c) - window, lo - delay);
  }

  /** In real time no interval shorter than the window by the delay holds more grants than the
      limit, whatever sweeps and other callers do. */
  lemma {:induction false} RealIntervalKeepsLimit(limit: int, window: int, delay: int, calls: seq<Call>, lo: int, hi: int)
    requires Timely(calls, delay) && hi - lo <= window - delay
    ensures GrantsIn(calls, Answers(limit, window, calls), lo, hi) <= Most(limit)
  {
    if calls != [] {
      var earlier, c := calls[..|calls| - 1], calls[|calls| - 1];
      assert calls == earlier + [c];
      var ok := PrunedAllow(limit, window, History(limit, window, earlier), Stamp(c)).0;
      assert Timely(earlier, delay) by { EarlierIsTimely(earlier, c, delay); }
      RealIntervalKeepsLimit(limit, window, delay, earlier, lo, hi);
      OneMore(limit, window, earlier, c);
      GrantsOneMore(earlier, Answers(limit, window, earlier), c, ok, lo, hi);
      if ok && c.at <= hi {
        GrantFindsRoom(limit, window, delay, earlier, c, lo, hi);
      }
    }
  }

  lemma {:induction false} EmptyInterval(calls: seq<Call>, answers: seq<bool>, lo: int, hi: int)
    requires |answers| == |calls| && hi <= lo
    ensures GrantsIn(calls, answers, lo, hi) == 0
  {
    if calls != [] {
      EmptyInterval(calls[..|calls| - 1], answers[..|calls| - 1], lo, hi);
    }
  }

  // ---------- longer intervals do not keep it ----------

  /** n calls at the end of a sweep that began at time zero. */
  function SweepCalls(n: nat, delay: int): (r: seq<Call>)
    ensures |r| == n
    ensures forall i :: 0 <= i < n ==> r[i] == Call(delay, Some(0))
  {
    if n == 0 then [] else SweepCalls(n - 1, delay) + [Call(delay, Some(0))]
  }

  predicate Zeros(h: seq<int>) {
    forall i :: 0 <= i < |h| ==> h[i] == 0
  }

  lemma {:induction false} RecentOfZeros(h: seq<int>, cutoff: int)
    requires Zeros(h)
    ensures Zeros(Recent(h, cutoff)) && |Recent(h, cutoff)| <= |h|
    ensures cutoff >= 0 ==> Recent(h, cutoff) == []
  {
    if h != [] { RecentOfZeros(h[..|h| - 1], cutoff); }
  }

  lemma AllowOfZeros(limit: nat, window: int, h: seq<int>)
    requires Zeros(h) && |h| < limit
    ensures PrunedAllow(limit, window, h, 0).0
    ensures Zeros(PrunedAllow(limit, window, h, 0).1) && |PrunedAllow(limit, window, h, 0).1| <= |h| + 1
  {
    RecentOfZeros(h, 0 - window);
  }

  lemma {:induction false} SweepIsGranted(limit: nat, window: int, delay: int, n: nat)
    requires n <= limit
    ensures GrantsIn(SweepCalls(n, delay), Answers(limit, window, SweepCalls(n, delay)), delay - 1, delay) == n
    ensures Zeros(History(limit, window, SweepCalls(n, delay))) && |History(limit, window, SweepCalls(n, delay))| <= n
  {
    if n > 0 {
      var calls, c := SweepCalls(n - 1, delay), Call(delay, Some(0));
      SweepIsGranted(limit, window, delay, n - 1);
      AllowOfZeros(limit, window, History(limit, window, calls));
      OneMore(limit, window, calls, c);
      GrantsOneMore(calls, Answers(limit, window, calls), c, true, delay - 1, delay);
    }
  }

  /** The first time at which the sweep's grants have left the window. */
  function Free(window: int, delay: int): int {
    if window > delay then window else delay
  }

  function LateSweep(limit: nat, window: int, delay: int): seq<Call> {
    SweepCalls(limit, delay) + [Call(Free(window, delay), None)]
  }

  lemma {:induction false} WiderCountsMore(calls: seq<Call>, answers: seq<bool>, lo: int, hi: int, hi': int)
    requires |answers| == |calls| && hi <= hi'
    ensures GrantsIn(calls, answers, lo, hi) <= GrantsIn(calls, answers, lo, hi')
  {
    if calls != [] {
      WiderCountsMore(calls[..|calls| - 1], answers[..|calls| - 1], lo, hi, hi');
    }
  }

  /** A sweep that spends the budget at its end, and one more call as soon as the window lets it. */
  lemma LateSweepExceeds(limit: nat, window: int, delay: nat)
    requires limit > 0
    ensures Timely(LateSweep(limit, window, delay), delay)
    ensures var calls := LateSweep(limit, window, delay);
            GrantsIn(calls, Answers(limit, window, calls), delay - 1, Free(window, delay)) > limit
  {
    var calls, c, hi := SweepCalls(limit, delay), Call(Free(window, delay), None), Free(window, delay);
    SweepIsGranted(limit, window, delay, limit);
    RecentOfZeros(History(limit, window, calls), hi - window);
    OneMore(limit, window, calls, c);
    WiderCountsMore(calls, Answers(limit, window, calls), delay - 1, delay, hi);
    GrantsOneMore(calls, Answers(limit, window, calls), c, true, delay - 1, hi);
  }

  ghost predicate Bounded(limit: int, window: int, calls: seq<Call>, lo: int, hi: int) {
    GrantsIn(calls, Answers(limit, window, calls), lo, hi) <= limit
  }

  /** Main result: with sweeps that may go on for `delay`, real intervals of a given length hold
      no more grants than the limit, in every run, exactly when the length is at most the window
      less the delay (or nothing). */
  lemma RealBoundIffWindowLessDelay(limit: nat, window: int, delay: nat, length: int)
    requires limit > 0
    ensures length <= Free(window, delay) - delay <==>
              forall calls, lo, hi :: Timely(calls, delay) && hi - lo <= length ==> Bounded(limit, window, calls, lo, hi)
  {
    if length <= Free(window, delay) - delay {
      forall calls, lo, hi | Timely(calls, delay) && hi - lo <= length ensures Bounded(limit, window, calls, lo, hi) {
        if hi <= lo {
          EmptyInterval(calls, Answers(limit, window, calls), lo, hi);
        } else {
          RealIntervalKeepsLimit(limit, window, delay, calls, lo, hi);
        }
      }
    } else {
      LateSweepExceeds(limit, window, delay);
      assert !Bounded(limit, window, LateSweep(limit, window, delay), delay - 1, Free(window, delay));
    }
  }

  // ---------- a sweep and a scheduled refresh ----------

  /** Two products of a sweep that began at t, the second at v, and between them a scheduled
      refresh at u. */
  function SweepAndScheduled(t: int, u: int, v: int): seq<Call> {
    [Call(t, Some(t))] + [Call(u, None)] + [Call(v, Some(t))]
  }

  lemma StampsOfSweep(t: int, u: int, v: int)
    ensures Stamps(SweepAndScheduled(t, u, v)) == [t, u] + [t]
  {
    StampsOneMore([], Call(t, Some(t)));
    StampsOneMore([Call(t, Some(t))], Call(u, None));
    StampsOneMore([Call(t, Some(t))] + [Call(u, None)], Call(v, Some(t)));
    assert [] + [Call(t, Some(t))] == [Call(t, Some(t))];
  }

  lemma ThirdIsGranted(earlier: seq<int>, t: int, u: int)
    requires t < u && earlier == [t, u]
    ensures PrunedRun(2, u - t, earlier + [t]).answers[2] && !SpecRun(2, u - t, earlier + [t]).answers[2]
  {
    WindowGrants(2, u - t, earlier, t, 0, 1);
    SpecDenies(2, u - t, earlier, t);
  }

  lemma SweepIsTimely(t: int, u: int, v: int)
    requires t <= u <= v
    ensures Timely(SweepAndScheduled(t, u, v), v - t)
  {}

  /** The stamps of these calls have a peak: with a limit of two, and the time from t to u as the
      window, the second product is refreshed although both grants before it still count. */
  lemma SweepMakesPeak(t: int, u: int, v: int)
    requires t < u <= v
    ensures Timely(SweepAndScheduled(t, u, v), v - t) && Peak(Stamps(SweepAndScheduled(t, u, v)), 0, 1, 2)
    ensures Answers(2, u - t, SweepAndScheduled(t, u, v))[2]
    ensures !SpecRun(2, u - t, Stamps(SweepAndScheduled(t, u, v))).answers[2]
  {
    SweepIsTimely(t, u, v);
    StampsOfSweep(t, u, v);
    var earlier := [t, u];
    ThirdIsGranted(earlier, t, u);
  }
}
