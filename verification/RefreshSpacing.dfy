/** How far apart the sweeps refresh one product: at least MinRefreshInterval, exactly when sweeps
    run one at a time or the interval asks for nothing. */
module RefreshSpacing {
  import opened Options
  import opened Flights
  import opened Refresh

  /** Nothing but refreshes writes the row of t: its registration is over, and it is not evicted. */
  predicate Settled(e: Event, t: TrackId) {
    !(e.Registered? && e.track == t) && !(e.Evict? && e.track == t)
  }

  predicate AllSettled(events: seq<Event>, t: TrackId) {
    forall e :: e in events ==> Settled(e, t)
  }

  /** Two sweep refreshes of t start at least the minimum interval apart. */
  ghost predicate Spaced(cfg: Config, s: State, t: TrackId) {
    forall i, j :: 0 <= i < j < |s.started| && s.started[i].track == t && s.started[j].track == t ==>
                     s.started[j].start >= s.started[i].start + cfg.minInterval
  }

  /** Every sweep refresh of t so far started at `bound` or earlier. */
  ghost predicate StartedBy(s: State, t: TrackId, bound: int) {
    forall m :: m in s.started && m.track == t ==> m.start <= bound
  }

  ghost predicate NeverStarted(s: State, t: TrackId) {
    forall m :: m in s.started ==> m.track != t
  }

  /** The attempt column of t is never behind the starts and never ahead of the clock. */
  ghost predicate AttemptOk(s: State, t: TrackId) {
    if t in s.rows && s.rows[t].attempt.Some? then
      s.rows[t].attempt.value <= s.clock && StartedBy(s, t, s.rows[t].attempt.value)
    else NeverStarted(s, t)
  }

  /** A refresh of t between its time stamp and its deferred clear. */
  predicate TimesOk(s: State, ag: Agent) {
    && (ag.pc == Stamp || ag.pc == Mark || Marked(ag.pc) ==> ag.track in s.rows)
    && (ag.pc == Mark ==>
          ag.start <= s.clock && (ag.track in s.rows && s.rows[ag.track].attempt.Some? ==>
                                    s.rows[ag.track].attempt.value <= ag.start))
    && (Marked(ag.pc) ==> ag.start <= s.clock && ag.track in s.rows && s.rows[ag.track].attempt == Some(ag.start))
  }

  ghost predicate TimeInv(s: State, t: TrackId) {
    && AttemptOk(s, t)
    && forall a :: a in s.agents && s.agents[a].track == t ==> TimesOk(s, s.agents[a])
  }

  /** Nothing that AttemptOk looks at changes, and the clock does not go back. */
  ghost predicate SameTimes(s: State, s': State, t: TrackId) {
    && s.clock <= s'.clock && s'.started == s.started
    && (t in s'.rows <==> t in s.rows)
    && (t in s.rows ==> s'.rows[t].attempt == s.rows[t].attempt)
  }

  lemma TimesStay(s: State, s': State, t: TrackId)
    requires AttemptOk(s, t) && SameTimes(s, s', t)
    ensures AttemptOk(s', t)
  {}

  lemma AgentTimesStay(s: State, s': State, ag: Agent)
    requires TimesOk(s, ag) && SameTimes(s, s', ag.track)
    ensures TimesOk(s', ag)
  {}

  lemma EnterSameTimes(s: State, a: AgentId, kind: Kind, u: TrackId, t: TrackId)
    ensures SameTimes(s, Enter(s, a, kind, u), t)
    ensures TimesOk(s, Enter(s, a, kind, u).agents[a])
  {}

  lemma EnterKeepsTimes(s: State, a: AgentId, kind: Kind, u: TrackId, t: TrackId)
    requires TimeInv(s, t) && a !in s.agents
    ensures TimeInv(Enter(s, a, kind, u), t)
  {
    var s' := Enter(s, a, kind, u);
    EnterSameTimes(s, a, kind, u, t);
    TimesStay(s, s', t);
    forall b | b in s'.agents && s'.agents[b].track == t ensures TimesOk(s', s'.agents[b]) {
      AgentTimesStay(s, s', s'.agents[b]);
    }
  }

  lemma {:induction false} MarkKeepsTimes(cfg: Config, s: State, a: AgentId, t: TrackId)
    requires TimeInv(s, t) && a in s.agents && s.agents[a].track == t && s.agents[a].pc == Mark
    ensures AttemptOk(Step(cfg, s, a, true), t)
  {
    assert TimesOk(s, s.agents[a]);
    var s' := Step(cfg, s, a, true);
    forall m | m in s'.started && m.track == t ensures m.start <= s.agents[a].start {
      assert m in s.started || m == Started(t, s.agents[a].start);
    }
  }

  /** A refresh between its mark and its clear writes its own start or the present time. */
  lemma OwnStepKeepsAttempt(cfg: Config, s: State, a: AgentId, ok: bool, t: TrackId)
    requires AttemptOk(s, t) && a in s.agents && s.agents[a].track == t && TimesOk(s, s.agents[a])
    requires !(s.agents[a].pc == Mark && ok)
    ensures AttemptOk(Step(cfg, s, a, ok), t)
  {
    var s' := Step(cfg, s, a, ok);
    if s.agents[a].pc != Clear {
      TimesStay(s, s', t);
    }
  }

  lemma {:induction false} StepKeepsAttempt(cfg: Config, s: State, a: AgentId, ok: bool, t: TrackId)
    requires TimeInv(s, t) && a in s.agents
    ensures AttemptOk(Step(cfg, s, a, ok), t)
  {
    var ag := s.agents[a];
    if ag.track == t && ag.pc == Mark && ok {
      MarkKeepsTimes(cfg, s, a, t);
    } else if ag.track == t {
      OwnStepKeepsAttempt(cfg, s, a, ok, t);
    } else {
      OtherStepKeepsAttempt(cfg, s, a, ok, t);
    }
  }

  lemma OtherStepKeepsAttempt(cfg: Config, s: State, a: AgentId, ok: bool, t: TrackId)
    requires AttemptOk(s, t) && a in s.agents && s.agents[a].track != t
    ensures AttemptOk(Step(cfg, s, a, ok), t)
  {
    StepLeavesOtherRows(cfg, s, a, ok, t);
    forall m | m in Step(cfg, s, a, ok).started && m.track == t ensures m in s.started {}
  }

  lemma {:induction false} StepKeepsOwnTimes(cfg: Config, s: State, a: AgentId, ok: bool)
    requires a in s.agents && TimesOk(s, s.agents[a]) && AttemptOk(s, s.agents[a].track)
    ensures TimesOk(Step(cfg, s, a, ok), Step(cfg, s, a, ok).agents[a])
  {
    var ag := s.agents[a];
    if ag.pc != Finish && !ag.pc.Closing? {
      var s' := Step(cfg, s, a, ok);
      assert s'.agents[a] == ag.(pc := Move(s, ag, ok), start := if ag.pc == Stamp then s.clock else ag.start);
      assert s'.rows == RowsAfter(cfg, s, ag, ok) && s'.clock == s.clock;
    }
  }

  /** Only the owner of the flight writes the row of a track whose refresh is under way. */
  lemma StepKeepsOtherTimes(cfg: Config, s: State, a: AgentId, ok: bool, b: AgentId)
    requires FlightInv(s) && a in s.agents && b in s.agents && a != b && TimesOk(s, s.agents[b])
    ensures TimesOk(Step(cfg, s, a, ok), s.agents[b])
  {
    var t := s.agents[b].track;
    assert Step(cfg, s, a, ok).clock == s.clock;
    if InBody(s, b, t) {
      OneBody(s, b, a, t);
      StepLeavesOtherRows(cfg, s, a, ok, t);
    }
  }

  lemma {:induction false} StepKeepsTimes(cfg: Config, s: State, a: AgentId, ok: bool, t: TrackId)
    requires FlightInv(s) && TimeInv(s, t) && a in s.agents
    ensures TimeInv(Step(cfg, s, a, ok), t)
  {
    var s' := Step(cfg, s, a, ok);
    StepKeepsAttempt(cfg, s, a, ok, t);
    forall b | b in s'.agents && s'.agents[b].track == t ensures TimesOk(s', s'.agents[b]) {
      if b == a {
        StepKeepsOwnTimes(cfg, s, a, ok);
      } else {
        StepKeepsOtherTimes(cfg, s, a, ok, b);
      }
    }
  }

  lemma {:induction false} NextKeepsTimes(cfg: Config, s: State, e: Event, t: TrackId)
    requires FlightInv(s) && TimeInv(s, t) && Settled(e, t)
    ensures TimeInv(Next(cfg, s, e), t)
  {
    match e
    case Request(a, kind, u) =>
      if a !in s.agents { EnterKeepsTimes(s, a, kind, u, t); }
    case SweepPick(w, a, u, tier) =>
      if CanPick(cfg, s, w, a, u, tier) { EnterKeepsTimes(Picked(s, w, a, u), a, BySweep(w), u, t); }
    case Go(a, ok) =>
      if a in s.agents { StepKeepsTimes(cfg, s, a, ok, t); }
    case _ => EventKeepsTimes(cfg, s, e, t);
  }

  lemma EventKeepsTimes(cfg: Config, s: State, e: Event, t: TrackId)
    requires TimeInv(s, t) && Settled(e, t) && NoAgentMoves(e)
    ensures TimeInv(Next(cfg, s, e), t)
  {
    var s' := Next(cfg, s, e);
    assert SameTimes(s, s', t);
    TimesStay(s, s', t);
    forall b | b in s'.agents && s'.agents[b].track == t ensures TimesOk(s', s'.agents[b]) {
      AgentTimesStay(s, s', s'.agents[b]);
    }
  }

  /** A start never lies before an earlier one: enough when the interval asks for nothing. */
  lemma {:induction false} StepKeepsOrder(cfg: Config, s: State, a: AgentId, ok: bool, t: TrackId)
    requires FlightInv(s) && TimeInv(s, t) && a in s.agents && Spaced(cfg, s, t) && cfg.minInterval <= 0
    ensures Spaced(cfg, Step(cfg, s, a, ok), t)
  {
    var s' := Step(cfg, s, a, ok);
    if s.agents[a].track == t {
      assert TimesOk(s, s.agents[a]);
    }
    forall i, j | 0 <= i < j < |s'.started| && s'.started[i].track == t && s'.started[j].track == t
      ensures s'.started[j].start >= s'.started[i].start + cfg.minInterval
    {
      assert s'.started[i] in s.started;
    }
  }

  /** With one sweep at a time: what the running sweep knows about t. */
  ghost predicate StartedBefore(cfg: Config, s: State, t: TrackId, now: int) {
    StartedBy(s, t, now - cfg.minInterval)
  }

  /** A sweep that still has t on its list listed an attempt no earlier than any start. */
  ghost predicate SweepOk(s: State, sw: Sweep, t: TrackId) {
    && (t in sw.pending && t in sw.listing ==>
          if sw.listing[t].attempt.Some? then StartedBy(s, t, sw.listing[t].attempt.value) else NeverStarted(s, t))
    && (sw.now.Some? ==> sw.now.value <= s.clock)
  }

  predicate BeforeMark(pc: Pc) {
    pc == Budget || pc == Load || pc == Stamp || pc == Mark
  }

  /** A sweep's own refresh is the one the sweep waits for; before its mark, the sweep's clock
      is at least the interval past every start of t. */
  ghost predicate RunnerOk(cfg: Config, s: State, a: AgentId, ag: Agent, t: TrackId) {
    ag.kind.BySweep? && ag.pc != Done ==>
      var w := ag.kind.sweep;
      && w in s.sweeps && s.sweeps[w].running == Some(a) && s.sweeps[w].now.Some?
      && ag.track !in s.sweeps[w].pending
      && (ag.track == t && BeforeMark(ag.pc) ==>
            && StartedBefore(cfg, s, t, s.sweeps[w].now.value)
            && (ag.pc == Mark ==> s.sweeps[w].now.value <= ag.start))
  }

  ghost predicate SweepInv(cfg: Config, s: State, t: TrackId) {
    && (forall v, w :: v in s.sweeps && w in s.sweeps ==> v == w)
    && (forall w :: w in s.sweeps ==> SweepOk(s, s.sweeps[w], t))
    && (forall a :: a in s.agents ==> RunnerOk(cfg, s, a, s.agents[a], t))
    && Spaced(cfg, s, t)
  }

  /** No start of t comes or goes. */
  ghost predicate SameStarts(s: State, s': State, t: TrackId) {
    forall m: Started :: m.track == t ==> (m in s'.started <==> m in s.started)
  }

  lemma RunnerStays(cfg: Config, s: State, s': State, b: AgentId, ag: Agent, t: TrackId)
    requires RunnerOk(cfg, s, b, ag, t) && SameStarts(s, s', t)
    requires ag.kind.BySweep? && ag.kind.sweep in s.sweeps ==>
               ag.kind.sweep in s'.sweeps && s'.sweeps[ag.kind.sweep] == s.sweeps[ag.kind.sweep]
    ensures RunnerOk(cfg, s', b, ag, t)
  {}

  lemma SweepStays(s: State, s': State, sw: Sweep, t: TrackId)
    requires SweepOk(s, sw, t) && SameStarts(s, s', t) && s.clock <= s'.clock
    ensures SweepOk(s', sw, t)
  {}

  /** Agents that are new are no sweep's or already past their mark, and sweeps stay. */
  ghost predicate SweepsStay(s: State, s': State) {
    && s'.sweeps == s.sweeps && s'.started == s.started && s.clock <= s'.clock
    && (forall b :: b in s'.agents ==> (b in s.agents && s'.agents[b] == s.agents[b]) || !s'.agents[b].kind.BySweep?)
  }

  lemma StayingSweepsAreOk(cfg: Config, s: State, s': State, t: TrackId)
    requires SweepInv(cfg, s, t) && SweepsStay(s, s')
    ensures SweepInv(cfg, s', t)
  {
    forall b | b in s'.agents ensures RunnerOk(cfg, s', b, s'.agents[b], t) {
      if s'.agents[b].kind.BySweep? {
        assert RunnerOk(cfg, s, b, s.agents[b], t);
        RunnerStays(cfg, s, s', b, s.agents[b], t);
      }
    }
    forall w | w in s'.sweeps ensures SweepOk(s', s'.sweeps[w], t) {
      assert SweepOk(s, s.sweeps[w], t);
      SweepStays(s, s', s.sweeps[w], t);
    }
  }

  lemma {:induction false} PickKeepsSweeps(cfg: Config, s: State, w: nat, a: AgentId, u: TrackId, tier: Tier, t: TrackId)
    requires SweepInv(cfg, s, t) && CanPick(cfg, s, w, a, u, tier)
    ensures SweepInv(cfg, Next(cfg, s, SweepPick(w, a, u, tier)), t)
  {
    var s' := Next(cfg, s, SweepPick(w, a, u, tier));
    assert SweepOk(s, s.sweeps[w], t);
    forall b | b in s'.agents ensures RunnerOk(cfg, s', b, s'.agents[b], t) {
      if b != a {
        assert RunnerOk(cfg, s, b, s.agents[b], t);
        IdleRunnerStays(cfg, s, w, a, u, tier, t, b);
      } else {
        PickedRunnerOk(cfg, s, w, a, u, tier, t);
      }
    }
  }

  lemma PickedRunnerOk(cfg: Config, s: State, w: nat, a: AgentId, u: TrackId, tier: Tier, t: TrackId)
    requires SweepInv(cfg, s, t) && CanPick(cfg, s, w, a, u, tier)
    ensures var s' := Next(cfg, s, SweepPick(w, a, u, tier)); RunnerOk(cfg, s', a, s'.agents[a], t)
  {
    assert SweepOk(s, s.sweeps[w], t);
  }

  lemma IdleRunnerStays(cfg: Config, s: State, w: nat, a: AgentId, u: TrackId, tier: Tier, t: TrackId, b: AgentId)
    requires SweepInv(cfg, s, t) && CanPick(cfg, s, w, a, u, tier) && b in s.agents && b != a
    ensures RunnerOk(cfg, Next(cfg, s, SweepPick(w, a, u, tier)), b, s.agents[b], t)
  {
    assert RunnerOk(cfg, s, b, s.agents[b], t);
  }

  lemma {:induction false} MarkKeepsSweeps(cfg: Config, s: State, a: AgentId, t: TrackId)
    requires FlightInv(s) && SweepInv(cfg, s, t)
    requires a in s.agents && s.agents[a].track == t && s.agents[a].pc == Mark && s.agents[a].kind.BySweep?
    ensures SweepInv(cfg, Step(cfg, s, a, true), t)
  {
    var ag := s.agents[a];
    var s' := Step(cfg, s, a, true);
    assert RunnerOk(cfg, s, a, ag, t);
    forall i, j | 0 <= i < j < |s'.started| && s'.started[i].track == t && s'.started[j].track == t
      ensures s'.started[j].start >= s'.started[i].start + cfg.minInterval
    {
      assert s'.started[i] in s.started;
    }
    forall b | b in s'.agents ensures RunnerOk(cfg, s', b, s'.agents[b], t) {
      assert RunnerOk(cfg, s, b, s.agents[b], t);
    }
    forall w | w in s'.sweeps ensures SweepOk(s', s'.sweeps[w], t) {
      assert SweepOk(s, s.sweeps[w], t);
      assert w == ag.kind.sweep;
    }
  }

  /** A step that starts no sweep refresh of t. */
  predicate StartsNone(s: State, a: AgentId, ok: bool, t: TrackId)
    requires a in s.agents
  {
    !(s.agents[a].track == t && s.agents[a].pc == Mark && s.agents[a].kind.BySweep? && ok)
  }

  lemma {:induction false} StartsNoneKeepsStarts(cfg: Config, s: State, a: AgentId, ok: bool, t: TrackId)
    requires a in s.agents && StartsNone(s, a, ok, t)
    ensures forall m: Started :: m.track == t ==> (m in Step(cfg, s, a, ok).started <==> m in s.started)
    ensures Spaced(cfg, s, t) ==> Spaced(cfg, Step(cfg, s, a, ok), t)
  {}

  /** How a step changes the place of its agent. */
  lemma StepPlace(cfg: Config, s: State, a: AgentId, ok: bool)
    requires a in s.agents
    ensures var ag, ag' := s.agents[a], Step(cfg, s, a, ok).agents[a];
            && ag'.kind == ag.kind && ag'.track == ag.track
            && (ag.pc == Done ==> ag'.pc == Done)
            && (BeforeMark(ag'.pc) ==> BeforeMark(ag.pc))
            && (ag'.pc == Mark ==> ag.pc == Stamp && ag'.start == s.clock)
    ensures Step(cfg, s, a, ok).sweeps == s.sweeps
  {}

  /** A sweep's own refresh moves on. */
  lemma MovingRunnerOk(cfg: Config, s: State, s': State, a: AgentId, ag: Agent, ag': Agent, t: TrackId)
    requires RunnerOk(cfg, s, a, ag, t) && SameStarts(s, s', t) && s'.sweeps == s.sweeps
    requires ag'.kind == ag.kind && ag'.track == ag.track && (ag.pc == Done ==> ag'.pc == Done)
    requires BeforeMark(ag'.pc) ==> BeforeMark(ag.pc)
    requires ag'.pc == Mark && ag.kind.BySweep? && ag.kind.sweep in s.sweeps && s.sweeps[ag.kind.sweep].now.Some? ==>
               s.sweeps[ag.kind.sweep].now.value <= ag'.start
    ensures RunnerOk(cfg, s', a, ag', t)
  {}

  lemma {:induction false} OtherStepKeepsRunners(cfg: Config, s: State, a: AgentId, ok: bool, t: TrackId, b: AgentId)
    requires SweepInv(cfg, s, t) && a in s.agents && StartsNone(s, a, ok, t) && b in s.agents
    ensures RunnerOk(cfg, Step(cfg, s, a, ok), b, Step(cfg, s, a, ok).agents[b], t)
  {
    assert RunnerOk(cfg, s, b, s.agents[b], t);
    StartsNoneKeepsStarts(cfg, s, a, ok, t);
    if b == a {
      StepPlace(cfg, s, a, ok);
      if s.agents[a].kind.BySweep? && s.agents[a].kind.sweep in s.sweeps {
        assert SweepOk(s, s.sweeps[s.agents[a].kind.sweep], t);
      }
      MovingRunnerOk(cfg, s, Step(cfg, s, a, ok), a, s.agents[a], Step(cfg, s, a, ok).agents[a], t);
    } else {
      RunnerStays(cfg, s, Step(cfg, s, a, ok), b, s.agents[b], t);
    }
  }

  lemma {:induction false} OtherStepKeepsSweeps(cfg: Config, s: State, a: AgentId, ok: bool, t: TrackId)
    requires SweepInv(cfg, s, t) && a in s.agents && StartsNone(s, a, ok, t)
    ensures SweepInv(cfg, Step(cfg, s, a, ok), t)
  {
    var s' := Step(cfg, s, a, ok);
    StartsNoneKeepsStarts(cfg, s, a, ok, t);
    forall b | b in s'.agents ensures RunnerOk(cfg, s', b, s'.agents[b], t) {
      OtherStepKeepsRunners(cfg, s, a, ok, t, b);
    }
    forall w | w in s'.sweeps ensures SweepOk(s', s'.sweeps[w], t) {
      assert SweepOk(s, s.sweeps[w], t);
    }
  }

  lemma {:induction false} ListKeepsSweeps(cfg: Config, s: State, w: nat, warmup: bool, t: TrackId)
    requires SweepInv(cfg, s, t) && AttemptOk(s, t) && !cfg.overlap
    ensures SweepInv(cfg, Next(cfg, s, SweepList(w, warmup)), t)
  {
    var s' := Next(cfg, s, SweepList(w, warmup));
    if s' != s {
      forall b | b in s'.agents ensures RunnerOk(cfg, s', b, s'.agents[b], t) {
        assert RunnerOk(cfg, s, b, s.agents[b], t);
      }
    }
  }

  /** An event that starts no agent of a sweep and changes no sweep beyond ending it. */
  lemma {:induction false} QuietEventKeepsSweeps(cfg: Config, s: State, e: Event, t: TrackId)
    requires SweepInv(cfg, s, t)
    requires e.Tick? || e.Columns? || e.Registered? || e.Evict? || e.Request?
    ensures SweepInv(cfg, Next(cfg, s, e), t)
  {
    assert SweepsStay(s, Next(cfg, s, e));
    StayingSweepsAreOk(cfg, s, Next(cfg, s, e), t);
  }

  lemma {:induction false} ClockKeepsSweeps(cfg: Config, s: State, w: nat, t: TrackId)
    requires SweepInv(cfg, s, t)
    ensures SweepInv(cfg, Next(cfg, s, SweepClock(w)), t)
  {
    var s' := Next(cfg, s, SweepClock(w));
    forall b | b in s'.agents ensures RunnerOk(cfg, s', b, s'.agents[b], t) {
      assert RunnerOk(cfg, s, b, s.agents[b], t);
    }
    forall v | v in s'.sweeps ensures SweepOk(s', s'.sweeps[v], t) {
      assert SweepOk(s, s.sweeps[v], t);
    }
  }

  lemma {:induction false} EndKeepsSweeps(cfg: Config, s: State, w: nat, t: TrackId)
    requires SweepInv(cfg, s, t)
    ensures SweepInv(cfg, Next(cfg, s, SweepEnd(w)), t)
  {
    var s' := Next(cfg, s, SweepEnd(w));
    forall b | b in s'.agents ensures RunnerOk(cfg, s', b, s'.agents[b], t) {
      assert RunnerOk(cfg, s, b, s.agents[b], t);
    }
    forall v | v in s'.sweeps ensures SweepOk(s', s'.sweeps[v], t) {
      assert SweepOk(s, s.sweeps[v], t);
    }
  }

  lemma {:induction false} NextKeepsSweeps(cfg: Config, s: State, e: Event, t: TrackId)
    requires FlightInv(s) && TimeInv(s, t) && SweepInv(cfg, s, t) && !cfg.overlap
    ensures SweepInv(cfg, Next(cfg, s, e), t)
  {
    match e
    case SweepList(w, warmup) => ListKeepsSweeps(cfg, s, w, warmup, t);
    case SweepPick(w, a, u, tier) =>
      if CanPick(cfg, s, w, a, u, tier) {
        PickKeepsSweeps(cfg, s, w, a, u, tier, t);
      }
    case Go(a, ok) =>
      if a in s.agents {
        if !StartsNone(s, a, ok, t) {
          MarkKeepsSweeps(cfg, s, a, t);
        } else {
          OtherStepKeepsSweeps(cfg, s, a, ok, t);
        }
      }
    case SweepClock(w) => ClockKeepsSweeps(cfg, s, w, t);
    case SweepEnd(w) => EndKeepsSweeps(cfg, s, w, t);
    case _ => QuietEventKeepsSweeps(cfg, s, e, t);
  }

  /** Sweeps one at a time, or an interval that asks for nothing. */
  predicate SpacingCanHold(cfg: Config) {
    !cfg.overlap || cfg.minInterval <= 0
  }

  ghost predicate SpaceInv(cfg: Config, s: State, t: TrackId) {
    && FlightInv(s) && TimeInv(s, t)
    && (if cfg.overlap then Spaced(cfg, s, t) else SweepInv(cfg, s, t))
  }

  lemma {:induction false} NextKeepsSpacing(cfg: Config, s: State, e: Event, t: TrackId)
    requires SpacingCanHold(cfg) && SpaceInv(cfg, s, t) && Settled(e, t)
    ensures SpaceInv(cfg, Next(cfg, s, e), t)
  {
    NextKeepsFlights(cfg, s, e);
    NextKeepsTimes(cfg, s, e, t);
    if !cfg.overlap {
      NextKeepsSweeps(cfg, s, e, t);
    } else if e.Go? && e.agent in s.agents {
      StepKeepsOrder(cfg, s, e.agent, e.ok, t);
    } else {
      assert Next(cfg, s, e).started == s.started;
    }
  }

  lemma {:induction false} RunKeepsSpacing(cfg: Config, s: State, events: seq<Event>, t: TrackId)
    requires SpacingCanHold(cfg) && SpaceInv(cfg, s, t) && AllSettled(events, t)
    ensures SpaceInv(cfg, Run(cfg, s, events), t)
    decreases |events|
  {
    if events != [] {
      NextKeepsSpacing(cfg, s, events[0], t);
      RunKeepsSpacing(cfg, Next(cfg, s, events[0]), events[1..], t);
    }
  }

  // Two overlapping sweeps refresh the one product twice at the same time.

  const SWEEPS_START := [SweepList(0, false), SweepList(1, false), SweepClock(0), SweepClock(1),
                         SweepPick(0, 0, "p", Warm), Go(0, true)]
  const FIRST_RUNS := [Go(0, true), Go(0, true), Go(0, true), Go(0, false), Go(0, true), Go(0, true)]
  const SECOND_RUNS := [SweepPick(1, 1, "p", Warm), Go(1, true), Go(1, true), Go(1, true), Go(1, true), Tick(0)]

  const UNTOUCHED := Row(false, None, NO_META)

  function Listed(now: Option<int>, pending: set<TrackId>, running: Option<AgentId>): Sweep {
    Sweep(false, map["p" := UNTOUCHED], now, pending, running)
  }

  /** Sweep 0 runs agent 0, which is at pc; sweep 1 has not picked yet. */
  function OneRunning(row: Row, ledger: Ledger, pc: Pc, started: seq<Started>): State {
    State(0, map["p" := row], ledger, map[0 := Agent(BySweep(0), "p", pc, 0)],
          map[0 := Listed(Some(0), {}, Some(0)), 1 := Listed(Some(0), {"p"}, None)], started)
  }

  function BothListed(now: Option<int>): State {
    ONE_PRODUCT.(sweeps := map[0 := Listed(now, {"p"}, None), 1 := Listed(now, {"p"}, None)])
  }

  lemma SweepsList(cfg: Config)
    requires cfg.overlap
    ensures Next(cfg, Next(cfg, ONE_PRODUCT, SweepList(0, false)), SweepList(1, false)) == BothListed(None)
  {
    assert ONE_PRODUCT.rows.Keys == {"p"};
    var s1 := Next(cfg, ONE_PRODUCT, SweepList(0, false));
    assert s1 == ONE_PRODUCT.(sweeps := map[0 := Listed(None, {"p"}, None)]);
  }

  lemma {:induction false} SweepsReadClock(cfg: Config)
    ensures Next(cfg, Next(cfg, BothListed(None), SweepClock(0)), SweepClock(1)) == BothListed(Some(0))
  {}

  lemma SweepPicksFirst(cfg: Config)
    ensures Next(cfg, BothListed(Some(0)), SweepPick(0, 0, "p", Warm))
         == OneRunning(UNTOUCHED, Begin(EMPTY_LEDGER, 0, "p"), Budget, [])
  {
    var none: set<TrackId> := {};
    assert {"p"} - {"p"} == none;
    assert CanPick(cfg, BothListed(Some(0)), 0, 0, "p", Warm);
  }

  lemma {:induction false} SweepsStart(cfg: Config)
    requires cfg.overlap
    ensures Run(cfg, ONE_PRODUCT, SWEEPS_START) == OneRunning(UNTOUCHED, Begin(EMPTY_LEDGER, 0, "p"), Load, [])
  {
    RunThree(cfg, ONE_PRODUCT, SWEEPS_START);
    var s3 := Next(cfg, BothListed(None), SweepClock(0));
    RunThree(cfg, s3, SWEEPS_START[3..]);
    SweepsList(cfg);
    SweepsReadClock(cfg);
    SweepPicksFirst(cfg);
    FirstMoves(cfg, UNTOUCHED, Begin(EMPTY_LEDGER, 0, "p"), Budget, [], true);
  }

  lemma FirstMoves(cfg: Config, row: Row, l: Ledger, pc: Pc, log: seq<Started>, ok: bool)
    requires pc != Finish && !pc.Closing? && pc != Done
    ensures Next(cfg, OneRunning(row, l, pc, log), Go(0, ok))
         == OneRunning(RowAt(cfg, row, pc, ok), l, PcAfter(pc, ok),
                       if pc == Mark && ok then log + [Started("p", 0)] else log)
  {
    SoloMoves(cfg, OneRunning(row, l, pc, log), row, Agent(BySweep(0), "p", pc, 0), ok);
  }

  lemma FirstReachesMark(cfg: Config, l: Ledger)
    ensures Next(cfg, Next(cfg, Next(cfg, OneRunning(UNTOUCHED, l, Load, []), Go(0, true)), Go(0, true)), Go(0, true))
         == OneRunning(Row(true, Some(0), NO_META), l, Fetch, [Started("p", 0)])
  {
    FirstMoves(cfg, UNTOUCHED, l, Load, [], true);
    FirstMoves(cfg, UNTOUCHED, l, Stamp, [], true);
    FirstMoves(cfg, UNTOUCHED, l, Mark, [], true);
  }

  lemma FirstClears(cfg: Config, l: Ledger, log: seq<Started>)
    ensures Next(cfg, Next(cfg, OneRunning(Row(true, Some(0), NO_META), l, Fetch, log), Go(0, false)), Go(0, true))
         == OneRunning(Row(false, Some(0), NO_META), l, Finish, log)
  {
    FirstMoves(cfg, Row(true, Some(0), NO_META), l, Fetch, log, false);
    FirstMoves(cfg, Row(true, Some(0), NO_META), l, Clear, log, true);
  }

  lemma {:induction false} FirstFinishes(cfg: Config, row: Row, log: seq<Started>)
    ensures var r := Next(cfg, OneRunning(row, Begin(EMPTY_LEDGER, 0, "p"), Finish, log), Go(0, true));
            && r.started == log && r.clock == 0 && r.rows == map["p" := row] && "p" !in r.ledger.board.open
            && 1 !in r.agents && r.sweeps == OneRunning(UNTOUCHED, EMPTY_LEDGER, Load, []).sweeps
  {}

  lemma {:induction false} FirstRuns(cfg: Config)
    ensures var r := Run(cfg, OneRunning(UNTOUCHED, Begin(EMPTY_LEDGER, 0, "p"), Load, []), FIRST_RUNS);
            && r.started == [Started("p", 0)] && r.clock == 0 && "p" in r.rows && "p" !in r.ledger.board.open
            && 1 !in r.agents && r.sweeps == OneRunning(UNTOUCHED, EMPTY_LEDGER, Load, []).sweeps
  {
    var l := Begin(EMPTY_LEDGER, 0, "p");
    FirstReachesMark(cfg, l);
    FirstClears(cfg, l, [Started("p", 0)]);
    FirstFinishes(cfg, Row(false, Some(0), NO_META), [Started("p", 0)]);
    RunThree(cfg, OneRunning(UNTOUCHED, l, Load, []), FIRST_RUNS);
    RunThree(cfg, OneRunning(Row(true, Some(0), NO_META), l, Fetch, [Started("p", 0)]), FIRST_RUNS[3..]);
  }

  /** Agent 1 of the second sweep is at pc, and only the first sweep's refresh has started. */
  predicate SecondAt(s: State, pc: Pc) {
    && s.started == [Started("p", 0)] && s.clock == 0 && "p" in s.rows
    && 1 in s.agents && s.agents[1] == Agent(BySweep(1), "p", pc, 0)
  }

  lemma {:induction false} SecondPicks(cfg: Config, s: State)
    requires s.started == [Started("p", 0)] && s.clock == 0 && "p" in s.rows && "p" !in s.ledger.board.open
    requires 1 !in s.agents && s.sweeps == OneRunning(UNTOUCHED, EMPTY_LEDGER, Load, []).sweeps
    ensures SecondAt(Next(cfg, s, SweepPick(1, 1, "p", Warm)), Budget)
  {
    assert CanPick(cfg, s, 1, 1, "p", Warm);
  }

  lemma {:induction false} SecondMoves(cfg: Config, s: State, pc: Pc)
    requires SecondAt(s, pc) && (pc == Budget || pc == Load || pc == Stamp)
    ensures SecondAt(Next(cfg, s, Go(1, true)), if pc == Budget then Load else if pc == Load then Stamp else Mark)
  {}

  lemma {:induction false} SecondStarts(cfg: Config, s: State)
    requires SecondAt(s, Mark)
    ensures Next(cfg, s, Go(1, true)).started == [Started("p", 0), Started("p", 0)]
  {}

  lemma {:induction false} SecondRuns(cfg: Config, s: State, events: seq<Event>)
    requires events == SECOND_RUNS
    requires s.started == [Started("p", 0)] && s.clock == 0 && "p" in s.rows && "p" !in s.ledger.board.open
    requires 1 !in s.agents && s.sweeps == OneRunning(UNTOUCHED, EMPTY_LEDGER, Load, []).sweeps
    ensures Run(cfg, s, events).started == [Started("p", 0), Started("p", 0)]
  {
    RunSix(cfg, s, events);
    SecondPicks(cfg, s);
    var s1 := Next(cfg, s, SweepPick(1, 1, "p", Warm));
    SecondMoves(cfg, s1, Budget);
    var s2 := Next(cfg, s1, Go(1, true));
    SecondMoves(cfg, s2, Load);
    var s3 := Next(cfg, s2, Go(1, true));
    SecondMoves(cfg, s3, Stamp);
    SecondStarts(cfg, Next(cfg, s3, Go(1, true)));
  }

  lemma OverlapBreaksSpacing(cfg: Config, one: State, first: seq<Event>, second: seq<Event>)
    requires cfg.overlap && cfg.minInterval > 0
    requires one == ONE_PRODUCT && first == FIRST_RUNS && second == SECOND_RUNS
    ensures !Spaced(cfg, Run(cfg, one, SWEEPS_START + (first + second)), "p")
  {
    RunConcat(cfg, one, SWEEPS_START, first + second);
    SweepsStart(cfg);
    var s := OneRunning(UNTOUCHED, Begin(EMPTY_LEDGER, 0, "p"), Load, []);
    RunConcat(cfg, s, first, second);
    FirstRuns(cfg);
    var r := Run(cfg, s, first);
    SecondRuns(cfg, r, second);
    var end := Run(cfg, r, second);
    assert end.started[0].track == "p" && end.started[1].track == "p";
  }

  lemma RunsAreSettled(first: seq<Event>, second: seq<Event>)
    requires first == FIRST_RUNS && second == SECOND_RUNS
    ensures Fresh(ONE_PRODUCT) && AllSettled(SWEEPS_START + (first + second), "p")
  {}

  /** Two sweep refreshes of a settled product start at least MinRefreshInterval apart in every
      run, read-through and requested refreshes included, exactly when sweeps run one at a time
      or the interval asks for nothing. The in-flight check alone does not do it: a sweep decides
      on the rows it listed at its beginning. */
  lemma SpacingIffSweepsDoNotOverlap(cfg: Config)
    ensures SpacingCanHold(cfg) <==>
            forall s, events, t :: Fresh(s) && AllSettled(events, t) ==> Spaced(cfg, Run(cfg, s, events), t)
  {
    if SpacingCanHold(cfg) {
      forall s, events, t | Fresh(s) && AllSettled(events, t) ensures Spaced(cfg, Run(cfg, s, events), t) {
        RunKeepsSpacing(cfg, s, events, t);
      }
    } else {
      var s, first, second := ONE_PRODUCT, FIRST_RUNS, SECOND_RUNS;
      OverlapBreaksSpacing(cfg, s, first, second);
      RunsAreSettled(first, second);
    }
  }
}
